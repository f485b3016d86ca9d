/** The sequencer: one object holding the transport state, the selectors,
    the held pitches and the notes it has left sounding, driven by MIDI
    clock, transport, note and selector calls. Every MIDI send is an
    append to `output`. */
module Sequencing {
  import opened Electone
  import opened HeldNotes
  import opened StepEngine

  class Sequencer {
    /** The pattern tables, handed over once before playback. */
    const drumDB: map<int, DrumStyle>
    const acompDB: map<int, AcompStyle>

    var isPlaying: bool
    var tickCounter: int
    var stepIndex: int

    var currentStyle: int
    var currentVar: int
    var currentFill: int
    var pendingResolution: int
    var currentAcompPat: int
    var octaveShift: int

    /** Pitches held on the accompaniment input, ascending, no duplicates. */
    var heldNotes: seq<int>
    /** Notes sent at the last step and not yet silenced, per output channel. */
    var lastDrumNotes: seq<int>
    var lastAcompNotes: seq<int>

    /** Every MIDI message sent so far, oldest first. */
    var output: seq<Event>

    /** The tables are fixed, so their well-formedness never changes. */
    predicate TablesValid()
    {
      DrumDatabaseValid(drumDB) && AcompDatabaseValid(acompDB)
    }

    lemma StyleTablesValid(style: int)
      requires TablesValid()
      ensures style in drumDB ==> DrumStyleValid(drumDB[style])
      ensures style in acompDB ==> AcompStyleValid(acompDB[style])
    {
    }

    ghost predicate Valid()
      reads this
    {
      && TablesValid()
      && tickCounter >= 0
      && stepIndex >= 0
      && -3 <= octaveShift <= 3
      && StrictlySorted(heldNotes)
    }

    /** A new sequencer over the given tables: stopped, every counter and
        selector at 0, nothing held or sounding, nothing sent. */
    constructor (drums: map<int, DrumStyle>, acomp: map<int, AcompStyle>)
      requires DrumDatabaseValid(drums) && AcompDatabaseValid(acomp)
      ensures Valid()
      ensures drumDB == drums && acompDB == acomp
      ensures !isPlaying && tickCounter == 0 && stepIndex == 0
      ensures currentStyle == 0 && currentVar == 0 && currentFill == 0
      ensures pendingResolution == 0 && currentAcompPat == 0 && octaveShift == 0
      ensures heldNotes == [] && lastDrumNotes == [] && lastAcompNotes == []
      ensures output == []
    {
      drumDB, acompDB := drums, acomp;
      isPlaying, tickCounter, stepIndex := false, 0, 0;
      currentStyle, currentVar, currentFill := 0, 0, 0;
      pendingResolution, currentAcompPat, octaveShift := 0, 0, 0;
      heldNotes, lastDrumNotes, lastAcompNotes := [], [], [];
      output := [];
    }

    // -------------------------------------------------------------------
    // Output

    method SendNote(channel: int, note: int, velocity: int)
      modifies this`output
      ensures output == old(output) + [NoteMessage(channel, note, velocity)]
    {
      output := output + [if velocity > 0 then NoteOn(channel, note, velocity) else NoteOff(channel, note, velocity)];
    }

    method SendProgramChange(channel: int, program: int)
      modifies this`output
      ensures output == old(output) + [ProgramChange(channel, program)]
    {
      output := output + [ProgramChange(channel, program)];
    }

    /** Sends a note-off for each note of the list, in order. */
    method SendNoteOffs(channel: int, notes: seq<int>)
      modifies this`output
      ensures output == old(output) + NoteOffs(channel, notes)
    {
      for i := 0 to |notes|
        invariant output == old(output) + NoteOffs(channel, notes[..i])
      {
        SendNote(channel, notes[i], 0);
        assert notes[..i + 1][..i] == notes[..i];
      }
      assert notes[..|notes|] == notes;
    }

    /** Silences every note left sounding on both channels and forgets them. */
    method Panic()
      modifies this`output, this`lastDrumNotes, this`lastAcompNotes
      ensures output == old(output) + NoteOffs(ChanOutDrums, old(lastDrumNotes)) + NoteOffs(ChanOutAcomp, old(lastAcompNotes))
      ensures lastDrumNotes == [] && lastAcompNotes == []
    {
      SendNoteOffs(ChanOutDrums, lastDrumNotes);
      SendNoteOffs(ChanOutAcomp, lastAcompNotes);
      lastDrumNotes := [];
      lastAcompNotes := [];
    }

    // -------------------------------------------------------------------
    // Note input

    /** A note-on adds the pitch if it is not held; a note-off removes it.
        The held list stays ascending and duplicate-free. */
    method OnNoteInput(note: int, on: bool)
      requires Valid()
      modifies this`heldNotes
      ensures Valid()
      ensures on ==> forall x :: x in heldNotes <==> x in old(heldNotes) || x == note
      ensures on && note in old(heldNotes) ==> heldNotes == old(heldNotes)
      ensures on && note !in old(heldNotes) ==> multiset(heldNotes) == multiset(old(heldNotes) + [note])
      ensures !on ==> note !in heldNotes && forall x :: x != note ==> (x in heldNotes <==> x in old(heldNotes))
    {
      if on {
        if note !in heldNotes {
          heldNotes := Insert(heldNotes, note);
        }
      } else {
        heldNotes := Remove(heldNotes, note);
      }
    }

    // -------------------------------------------------------------------
    // Step engines

    /** Plays the drum part of the step at `stepIndex`: the resolution hits
        when one is due at the bar start, otherwise the fill or variation
        pattern, arming the resolution at the end of a fill's bar. */
    method PlayDrumStep(ds: DrumStyle)
      requires Valid() && DrumStyleValid(ds)
      modifies this`output, this`lastDrumNotes, this`pendingResolution, this`currentFill
      ensures Valid()
      ensures var o := DrumStep(ds, stepIndex, old(pendingResolution), old(currentFill), currentVar);
        && output == old(output) + HitEvents(ChanOutDrums, o.hits)
        && lastDrumNotes == old(lastDrumNotes) + HitNotes(o.hits)
        && pendingResolution == o.pending
        && currentFill == o.fill
    {
      var notesPlayed := false;
      if stepIndex == 0 && pendingResolution > 0 {
        if |ds.resolution| > 0 {
          PlayDrumHits(ds.resolution);
          notesPlayed := true;
        }
        pendingResolution := 0;
      }
      if !notesPlayed {
        PlayPattern(ds);
      }
    }

    /** Plays the selected fill, or else the selected variation, at
        `stepIndex`; on the last step of a fill's bar the fill is handed
        over to the pending resolution. */
    method PlayPattern(ds: DrumStyle)
      requires stepIndex >= 0
      modifies this`output, this`lastDrumNotes, this`pendingResolution, this`currentFill
      ensures var hits := PatternHits(SelectPattern(ds, old(currentFill), currentVar), stepIndex);
        && output == old(output) + HitEvents(ChanOutDrums, hits)
        && lastDrumNotes == old(lastDrumNotes) + HitNotes(hits)
      ensures FillKnown(ds, old(currentFill)) && stepIndex == ds.steps - 1 ==>
        pendingResolution == old(currentFill) && currentFill == 0
      ensures !(FillKnown(ds, old(currentFill)) && stepIndex == ds.steps - 1) ==>
        pendingResolution == old(pendingResolution) && currentFill == old(currentFill)
    {
      var target: Option<DrumPattern> := None;
      if currentFill > 0 {
        if currentFill in ds.fills {
          target := Some(ds.fills[currentFill]);
          if stepIndex == ds.steps - 1 {
            pendingResolution := currentFill;
            currentFill := 0;
          }
        } else if currentVar in ds.variations {
          target := Some(ds.variations[currentVar]);
        }
      } else if currentVar in ds.variations {
        target := Some(ds.variations[currentVar]);
      }
      assert target == SelectPattern(ds, old(currentFill), currentVar);
      if target.Some? {
        PlayTracks(target.value.tracks);
      }
    }

    /** Sends each hit on the drum channel and records its note as sounding. */
    method PlayDrumHits(hits: seq<Hit>)
      modifies this`output, this`lastDrumNotes
      ensures output == old(output) + HitEvents(ChanOutDrums, hits)
      ensures lastDrumNotes == old(lastDrumNotes) + HitNotes(hits)
    {
      for i := 0 to |hits|
        invariant output == old(output) + HitEvents(ChanOutDrums, hits[..i])
        invariant lastDrumNotes == old(lastDrumNotes) + HitNotes(hits[..i])
      {
        SendNote(ChanOutDrums, hits[i].note, hits[i].velocity);
        lastDrumNotes := lastDrumNotes + [hits[i].note];
        assert hits[..i + 1][..i] == hits[..i];
      }
      assert hits[..|hits|] == hits;
    }

    /** Sends the hit of every track that sounds at `stepIndex`, in track order. */
    method PlayTracks(tracks: seq<Track>)
      requires stepIndex >= 0
      modifies this`output, this`lastDrumNotes
      ensures output == old(output) + HitEvents(ChanOutDrums, TrackHits(tracks, stepIndex))
      ensures lastDrumNotes == old(lastDrumNotes) + HitNotes(TrackHits(tracks, stepIndex))
    {
      ghost var step: nat := stepIndex;
      for i := 0 to |tracks|
        invariant output == old(output) + HitEvents(ChanOutDrums, TrackHits(tracks[..i], step))
        invariant lastDrumNotes == old(lastDrumNotes) + HitNotes(TrackHits(tracks[..i], step))
      {
        ghost var before := TrackHits(tracks[..i], step);
        ghost var hit := TrackHit(tracks[i], step);
        PlayTrack(tracks[i]);
        HitEventsAppend(ChanOutDrums, before, hit);
        HitNotesAppend(before, hit);
        assert tracks[..i + 1][..i] == tracks[..i];
        assert TrackHits(tracks[..i + 1], step) == before + hit;
      }
      assert tracks[..|tracks|] == tracks;
    }

    /** Sends one track's hit at `stepIndex` when it sounds there: value 1
        at the default velocity, a larger value at that velocity. */
    method PlayTrack(t: Track)
      requires stepIndex >= 0
      modifies this`output, this`lastDrumNotes
      ensures output == old(output) + HitEvents(ChanOutDrums, TrackHit(t, stepIndex))
      ensures lastDrumNotes == old(lastDrumNotes) + HitNotes(TrackHit(t, stepIndex))
    {
      var note := t.note;
      var steps := t.values;
      if stepIndex < |steps| && steps[stepIndex] > 0 {
        var vel := if steps[stepIndex] == 1 then 100 else steps[stepIndex];
        SendNote(ChanOutDrums, note, vel);
        lastDrumNotes := lastDrumNotes + [note];
      }
    }

    /** Plays the accompaniment part of the step: a chord of all held
        pitches or one arpeggio pitch, moved by the octave shift. */
    method PlayAcompStep(style: AcompStyle)
      requires tickCounter >= 0 && AcompStyleValid(style)
      modifies this`output, this`lastAcompNotes
      ensures var hits := AcompStep(style, currentAcompPat, heldNotes, octaveShift, tickCounter);
        && output == old(output) + HitEvents(ChanOutAcomp, hits)
        && lastAcompNotes == old(lastAcompNotes) + HitNotes(hits)
    {
      if currentAcompPat !in style.patterns {
        return;
      }
      if |heldNotes| == 0 {
        return;
      }
      var ap := style.patterns[currentAcompPat];
      PatternOfValidStyle(style, currentAcompPat);
      var currentStep := (tickCounter / PulsesPerStep) % ap.steps;
      if currentStep >= |ap.pattern| {
        return;
      }
      var val := ap.pattern[currentStep];
      if val == 0 {
        return;
      }
      var mode := ModeOf(ap.mode);
      if mode == Chord {
        PlayChord(heldNotes, octaveShift, ap.velocity);
      } else {
        var noteToPlay := PickArpNote(heldNotes, mode, val);
        PlayArpNote(noteToPlay, octaveShift, ap.velocity);
      }
    }

    /** Chord mode: sends every held pitch, moved by the octave shift and
        clamped to the note range, in held order. */
    method PlayChord(notes: seq<int>, octave: int, velocity: int)
      modifies this`output, this`lastAcompNotes
      ensures output == old(output) + HitEvents(ChanOutAcomp, ChordHits(notes, octave, velocity))
      ensures lastAcompNotes == old(lastAcompNotes) + HitNotes(ChordHits(notes, octave, velocity))
    {
      var shiftAmount := octave * 12;
      ghost var hits := ChordHits(notes, octave, velocity);
      for i := 0 to |notes|
        invariant output == old(output) + HitEvents(ChanOutAcomp, hits[..i])
        invariant lastAcompNotes == old(lastAcompNotes) + HitNotes(hits[..i])
      {
        var finalNote := notes[i] + shiftAmount;
        if finalNote < 0 { finalNote := 0; }
        if finalNote > 127 { finalNote := 127; }
        assert hits[i] == Hit(finalNote, velocity);
        SendNote(ChanOutAcomp, finalNote, velocity);
        lastAcompNotes := lastAcompNotes + [finalNote];
        assert hits[..i + 1][..i] == hits[..i];
      }
      assert hits[..|notes|] == hits;
    }

    /** Arpeggio modes: sends the picked pitch, moved and clamped, unless
        it is the "no note" value. */
    method PlayArpNote(note: int, octave: int, velocity: int)
      modifies this`output, this`lastAcompNotes
      ensures output == old(output) + HitEvents(ChanOutAcomp, ArpHit(note, octave, velocity))
      ensures lastAcompNotes == old(lastAcompNotes) + HitNotes(ArpHit(note, octave, velocity))
    {
      if note != NoNote {
        var finalNote := note + octave * 12;
        if finalNote < 0 { finalNote := 0; }
        if finalNote > 127 { finalNote := 127; }
        SendNote(ChanOutAcomp, finalNote, velocity);
        lastAcompNotes := lastAcompNotes + [finalNote];
      }
    }

    // -------------------------------------------------------------------
    // Clock and transport

    /** One MIDI clock pulse. Stopped: nothing happens. Playing, at every
        sixth pulse: the notes left sounding are silenced first; then, if
        the current style has drums, the counter restarts past its limit,
        the step index is taken from it, and the drum step and (if the style
        has one) the accompaniment step are played. The counter then
        advances by one. */
    method OnClock()
      requires Valid()
      modifies this`tickCounter, this`stepIndex, this`output, this`lastDrumNotes,
               this`lastAcompNotes, this`pendingResolution, this`currentFill
      ensures Valid()
      ensures currentStyle in drumDB ==> DrumStyleValid(drumDB[currentStyle])
      ensures currentStyle in acompDB ==> AcompStyleValid(acompDB[currentStyle])
      ensures !old(isPlaying) ==> unchanged(this)
      ensures old(isPlaying) && old(tickCounter) % PulsesPerStep != 0 ==>
        && tickCounter == old(tickCounter) + 1
        && unchanged(this`stepIndex, this`output, this`lastDrumNotes, this`lastAcompNotes,
                     this`pendingResolution, this`currentFill)
      ensures old(isPlaying) && old(tickCounter) % PulsesPerStep == 0 && currentStyle !in drumDB ==>
        && tickCounter == old(tickCounter) + 1
        && output == old(output) + NoteOffs(ChanOutDrums, old(lastDrumNotes)) + NoteOffs(ChanOutAcomp, old(lastAcompNotes))
        && lastDrumNotes == [] && lastAcompNotes == []
        && unchanged(this`stepIndex, this`pendingResolution, this`currentFill)
      ensures old(isPlaying) && old(tickCounter) % PulsesPerStep == 0 && currentStyle in drumDB ==>
        var ds := drumDB[currentStyle];
        var tick := ResetTick(old(tickCounter));
        var d := DrumStep(ds, StepOf(tick, ds.steps), old(pendingResolution), old(currentFill), currentVar);
        var a := if currentStyle in acompDB
                 then AcompStep(acompDB[currentStyle], currentAcompPat, heldNotes, octaveShift, tick)
                 else [];
        && tickCounter == tick + 1
        && stepIndex == StepOf(tick, ds.steps) && stepIndex < Abs(ds.steps)
        && output == old(output) + NoteOffs(ChanOutDrums, old(lastDrumNotes)) + NoteOffs(ChanOutAcomp, old(lastAcompNotes))
                                 + HitEvents(ChanOutDrums, d.hits) + HitEvents(ChanOutAcomp, a)
        && lastDrumNotes == HitNotes(d.hits) && lastAcompNotes == HitNotes(a)
        && pendingResolution == d.pending && currentFill == d.fill
    {
      StyleTablesValid(currentStyle);
      if !isPlaying {
        return;
      }
      if tickCounter % PulsesPerStep == 0 {
        Boundary();
      }
      tickCounter := tickCounter + 1;
    }

    /** The work of a step boundary: the notes left sounding are silenced
        on both channels, then the step is played when the current style
        has drums. */
    method Boundary()
      requires Valid()
      modifies this`tickCounter, this`stepIndex, this`output, this`lastDrumNotes,
               this`lastAcompNotes, this`pendingResolution, this`currentFill
      ensures Valid()
      ensures currentStyle !in drumDB ==>
        && output == old(output) + NoteOffs(ChanOutDrums, old(lastDrumNotes)) + NoteOffs(ChanOutAcomp, old(lastAcompNotes))
        && lastDrumNotes == [] && lastAcompNotes == []
        && unchanged(this`tickCounter, this`stepIndex, this`pendingResolution, this`currentFill)
      ensures currentStyle in drumDB ==>
        && DrumStyleValid(drumDB[currentStyle])
        && (currentStyle in acompDB ==> AcompStyleValid(acompDB[currentStyle]))
      ensures currentStyle in drumDB ==>
        var ds := drumDB[currentStyle];
        var tick := ResetTick(old(tickCounter));
        var d := DrumStep(ds, StepOf(tick, ds.steps), old(pendingResolution), old(currentFill), currentVar);
        var a := if currentStyle in acompDB
                 then AcompStep(acompDB[currentStyle], currentAcompPat, heldNotes, octaveShift, tick)
                 else [];
        && tickCounter == tick
        && stepIndex == StepOf(tick, ds.steps)
        && output == old(output) + NoteOffs(ChanOutDrums, old(lastDrumNotes)) + NoteOffs(ChanOutAcomp, old(lastAcompNotes))
                                 + HitEvents(ChanOutDrums, d.hits) + HitEvents(ChanOutAcomp, a)
        && lastDrumNotes == HitNotes(d.hits) && lastAcompNotes == HitNotes(a)
        && pendingResolution == d.pending && currentFill == d.fill
    {
      SendNoteOffs(ChanOutDrums, lastDrumNotes);
      lastDrumNotes := [];
      SendNoteOffs(ChanOutAcomp, lastAcompNotes);
      lastAcompNotes := [];
      if currentStyle in drumDB {
        PlayStep();
        assert lastDrumNotes == [] + HitNotes(DrumStep(drumDB[currentStyle], stepIndex, old(pendingResolution), old(currentFill), currentVar).hits);
      }
    }

    /** The step logic at a boundary when the current style has drums: the
        counter restarts past its limit, the step index is taken from it,
        then the drum step and, when the style has one, the accompaniment
        step are played. */
    method PlayStep()
      requires Valid() && currentStyle in drumDB
      modifies this`tickCounter, this`stepIndex, this`output, this`lastDrumNotes,
               this`lastAcompNotes, this`pendingResolution, this`currentFill
      ensures Valid()
      ensures DrumStyleValid(drumDB[currentStyle])
      ensures currentStyle in acompDB ==> AcompStyleValid(acompDB[currentStyle])
      ensures var ds := drumDB[currentStyle];
        var tick := ResetTick(old(tickCounter));
        var d := DrumStep(ds, StepOf(tick, ds.steps), old(pendingResolution), old(currentFill), currentVar);
        var a := if currentStyle in acompDB
                 then AcompStep(acompDB[currentStyle], currentAcompPat, heldNotes, octaveShift, tick)
                 else [];
        && tickCounter == tick
        && stepIndex == StepOf(tick, ds.steps)
        && output == old(output) + HitEvents(ChanOutDrums, d.hits) + HitEvents(ChanOutAcomp, a)
        && lastDrumNotes == old(lastDrumNotes) + HitNotes(d.hits)
        && lastAcompNotes == old(lastAcompNotes) + HitNotes(a)
        && pendingResolution == d.pending && currentFill == d.fill
    {
      StyleTablesValid(currentStyle);
      var ds := drumDB[currentStyle];
      if tickCounter > TickLimit {
        tickCounter := 0;
      }
      stepIndex := (tickCounter / PulsesPerStep) % ds.steps;
      assert tickCounter == ResetTick(old(tickCounter)) && stepIndex == StepOf(tickCounter, ds.steps);
      PlayDrumStep(ds);
      ghost var afterDrums := output;
      if currentStyle in acompDB {
        PlayAcompStep(acompDB[currentStyle]);
      } else {
        assert output == afterDrums + HitEvents(ChanOutAcomp, []);
      }
    }

    /** Starts playback from the top: counters and the pending resolution
        at 0, and program 123 sent on the drum and accompaniment channels. */
    method OnStart()
      requires Valid()
      modifies this`isPlaying, this`tickCounter, this`stepIndex, this`pendingResolution, this`output
      ensures Valid()
      ensures isPlaying && tickCounter == 0 && stepIndex == 0 && pendingResolution == 0
      ensures output == old(output) + [ProgramChange(ChanOutDrums, StartProgram), ProgramChange(ChanOutAcomp, StartProgram)]
    {
      isPlaying, tickCounter, stepIndex, pendingResolution := true, 0, 0, 0;
      SendProgramChange(ChanOutDrums, StartProgram);
      SendProgramChange(ChanOutAcomp, StartProgram);
    }

    /** Stops playback and silences every note left sounding. */
    method OnStop()
      requires Valid()
      modifies this`isPlaying, this`output, this`lastDrumNotes, this`lastAcompNotes
      ensures Valid()
      ensures !isPlaying && lastDrumNotes == [] && lastAcompNotes == []
      ensures output == old(output) + NoteOffs(ChanOutDrums, old(lastDrumNotes)) + NoteOffs(ChanOutAcomp, old(lastAcompNotes))
    {
      isPlaying := false;
      Panic();
    }

    // -------------------------------------------------------------------
    // Selectors

    /** Selects a style; when it has the selected accompaniment pattern,
        that pattern's program is sent at once. */
    method SetStyle(style: int)
      requires Valid()
      modifies this`currentStyle, this`output
      ensures Valid()
      ensures currentStyle == style
      ensures style in acompDB && currentAcompPat in acompDB[style].patterns ==>
        output == old(output) + [ProgramChange(ChanOutAcomp, acompDB[style].patterns[currentAcompPat].program)]
      ensures !(style in acompDB && currentAcompPat in acompDB[style].patterns) ==> output == old(output)
    {
      currentStyle := style;
      if currentStyle in acompDB && currentAcompPat in acompDB[currentStyle].patterns {
        SendProgramChange(ChanOutAcomp, acompDB[currentStyle].patterns[currentAcompPat].program);
      }
    }

    method SetVar(variation: int)
      requires Valid()
      modifies this`currentVar
      ensures Valid()
      ensures currentVar == variation
    {
      currentVar := variation;
    }

    /** Selects a fill; any id is stored, and only a positive one the style
        has is played. */
    method SetFill(fill: int)
      requires Valid()
      modifies this`currentFill
      ensures Valid()
      ensures currentFill == fill
    {
      currentFill := fill;
    }

    /** Selects an accompaniment pattern; when the current style has it,
        its program is sent at once. */
    method SetAcompPattern(pattern: int)
      requires Valid()
      modifies this`currentAcompPat, this`output
      ensures Valid()
      ensures currentAcompPat == pattern
      ensures currentStyle in acompDB && pattern in acompDB[currentStyle].patterns ==>
        output == old(output) + [ProgramChange(ChanOutAcomp, acompDB[currentStyle].patterns[pattern].program)]
      ensures !(currentStyle in acompDB && pattern in acompDB[currentStyle].patterns) ==> output == old(output)
    {
      currentAcompPat := pattern;
      if currentStyle in acompDB && currentAcompPat in acompDB[currentStyle].patterns {
        SendProgramChange(ChanOutAcomp, acompDB[currentStyle].patterns[currentAcompPat].program);
      }
    }

    /** Moves the octave shift by `direction`, kept within [-3, 3]. */
    method ChangeOctave(direction: int)
      requires Valid()
      modifies this`octaveShift
      ensures Valid()
      ensures -3 <= old(octaveShift) + direction <= 3 ==> octaveShift == old(octaveShift) + direction
      ensures old(octaveShift) + direction > 3 ==> octaveShift == 3
      ensures old(octaveShift) + direction < -3 ==> octaveShift == -3
    {
      octaveShift := octaveShift + direction;
      if octaveShift > 3 { octaveShift := 3; }
      if octaveShift < -3 { octaveShift := -3; }
    }
  }

  /** The pitch an arpeggio mode picks for a trigger value: arp-once wraps
      around the held pitches, arp-loop walks up and down them; any other
      mode picks the "no note" value. */
  method PickArpNote(heldNotes: seq<int>, mode: Mode, val: int) returns (noteToPlay: int)
    requires |heldNotes| > 0 && mode != Chord
    requires mode == ArpOnce || mode == ArpLoop ==> val >= 1
    ensures mode == ArpOnce ==> noteToPlay == heldNotes[ArpOnceIndex(val, |heldNotes|)]
    ensures mode == ArpLoop ==> noteToPlay == heldNotes[ArpLoopIndex(val, |heldNotes|)]
    ensures mode == Other ==> noteToPlay == NoNote
  {
    var idxRequest := val - 1;
    var numNotes := |heldNotes|;
    noteToPlay := NoNote;
    if mode == ArpOnce {
      noteToPlay := heldNotes[idxRequest % numNotes];
    } else if mode == ArpLoop {
      if numNotes == 1 {
        noteToPlay := heldNotes[0];
      } else {
        var cycleLen := numNotes * 2 - 2;
        var posInCycle := idxRequest % cycleLen;
        noteToPlay := if posInCycle < numNotes then heldNotes[posInCycle] else heldNotes[cycleLen - posInCycle];
      }
    }
  }

  /** Five octave-up presses from no shift stop at +3. */
  method FiveOctavesUp(s: Sequencer)
    requires s.Valid() && s.octaveShift == 0
    modifies s
    ensures s.Valid() && s.octaveShift == 3
  {
    s.ChangeOctave(1);
    s.ChangeOctave(1);
    s.ChangeOctave(1);
    s.ChangeOctave(1);
    s.ChangeOctave(1);
  }

  /** After a stop, nothing is recorded as sounding, whatever came before;
      a clock pulse while stopped sends nothing. */
  method StopThenClock(s: Sequencer)
    requires s.Valid()
    modifies s
    ensures s.Valid() && !s.isPlaying && s.lastDrumNotes == [] && s.lastAcompNotes == []
    ensures s.output == old(s.output) + NoteOffs(ChanOutDrums, old(s.lastDrumNotes)) + NoteOffs(ChanOutAcomp, old(s.lastAcompNotes))
  {
    s.OnStop();
    s.OnClock();
  }
}
