# Electone accompaniment sequencer, modelled in Dafny

The sequencer is the core of a small keyboard accompaniment engine. It is
driven by MIDI clock pulses, transport calls (start, stop) and selector
calls. These choose the style, variation, fill, accompaniment pattern and
octave shift. It also tracks the pitches held on the accompaniment input
channel.

Every sixth clock pulse is a step boundary. At a boundary the sequencer
silences the notes it left sounding. If the current style has a drum table
(sequencer.cpp:35), it then:

- takes the step index from the tick counter;
- plays the drum part: a variation, a fill, or the resolution that follows a fill;
- if that style also has an accompaniment table (sequencer.cpp:43), plays
  the accompaniment part: a chord over the held pitches, or an arpeggio
  that either wraps around them or walks up and down them.

Without a drum table a boundary only silences notes.

The accompaniment is moved by whole octaves and clamped to the MIDI note range.

The project has four modules:

- `Electone` (`electone.dfy`):
  - the fixed channels;
  - the pattern records, with their defaults;
  - what a well-formed pattern table is.
- `HeldNotes` (`held_notes.dfy`): the held-pitch list as an ascending,
  duplicate-free sequence, with press and release.
- `StepEngine` (`step_engine.dfy`): what one boundary decides, as pure
  functions of the state it reads:
  - the MIDI events of a send;
  - the step index;
  - the drum outcome, which is the hits plus the new pending resolution
    and fill;
  - the accompaniment hits.
- `Sequencing` (`sequencer.dfy`): the `Sequencer` class. It has the
  source's mutable fields and one method per operation. Each method
  mirrors the source's statements.

Each MIDI send appends an `Event` to the `output` field. Every method's
postcondition ties the new fields and the new events to the `StepEngine`
functions of the old state. The properties the source promises are lemmas
about those functions, or invariants the methods keep: `Valid()`, which
includes the sortedness of the held pitches.

Drum tracks and resolution hits are read from `std::map`s that the source
iterates in key order. Here they are sequences ascending by note. Maps
that are only looked up stay Dafny `map`s.

The pattern tables must be well formed:

- no bar length is zero, because it divides the step counter (a negative
  one gives the same remainder in C++ and in Dafny, since the counter is
  never negative);
- no trigger value of an arp-once or arp-loop pattern is negative,
  because there a negative value gives a negative index into the held
  pitches for some numbers of held pitches (C++'s `%` truncates toward
  zero, sequencer.cpp:113, :118-119).

The constructor demands this, and `Valid()` keeps it.

**The tick counter restart is not aligned with the bar.** The counter is
reset to 0 at the first boundary above 24000, which is tick 24006, and the
step index is then taken from the reset counter. With 16 steps, ticks
23994, 24000 and 24006 play steps 15, 0 and 0: step 0 plays twice in a
row. The model keeps this behaviour; `StepEngine.RestartRepeatsFirstStep`
states it. The restart happens only when the current style has drums;
otherwise the counter keeps growing by one per pulse.

## Model

| member | source | states |
|---|---|---|
| Electone.DefaultsAreValid | electone.h:34-46 | a default drum style has 16 steps and no variations, fills or resolution; a default accompaniment pattern has program 0, chord mode, velocity 100, 16 steps and an empty trigger list; both are well formed |
| Electone.ModeOf | sequencer.cpp:101-114 | the mode is chord, arp-once or arp-loop exactly when the name is "chord", "arp-once" or "arp-loop", and no mode the engine plays for any other name |
| Electone.ChannelsDistinct | electone.h:17-19 | the input, drum and accompaniment channels are valid MIDI channels (0-15) and pairwise distinct |
| HeldNotes.Insert | sequencer.cpp:11-15 | pressing an absent pitch gives an ascending duplicate-free list holding exactly the old pitches plus the new one (as a multiset too) |
| HeldNotes.Remove | sequencer.cpp:16-19 | releasing a pitch erases every occurrence of it, keeps every other pitch with its multiplicity, and keeps an ascending list ascending |
| HeldNotes.SortedByElements | sequencer.cpp:12-14 | two ascending duplicate-free lists with the same pitches are equal, so the held list is determined by the set of held pitches |
| HeldNotes.PressThenRelease | sequencer.cpp:9-20 | pressing then releasing a pitch that was not held restores the list |
| HeldNotes.ReleaseThenPress | sequencer.cpp:9-20 | releasing then pressing a held pitch restores the list |
| HeldNotes.PressesCommute | sequencer.cpp:11-15 | the held list after two presses does not depend on their order |
| StepEngine.NoteMessage | sequencer.cpp:175-181 | a note send is a note-on exactly when the velocity is positive, otherwise a note-off, on the given channel, note and velocity |
| StepEngine.HitEvents | sequencer.cpp:56-58 | sending a list of hits gives one note message per hit, in order |
| StepEngine.NoteOffs | sequencer.cpp:189-190 | silencing a list of notes gives one note-off per note, in order, each at velocity 0 |
| StepEngine.HitNotes | sequencer.cpp:81 | the notes recorded as sounding are the hit notes, in order |
| StepEngine.ResetTick | sequencer.cpp:38 | the counter the step logic sees never exceeds 24000, is never negative for a non-negative counter, and differs from the counter exactly when the counter was above 24000, in which case it is 0 |
| StepEngine.StepOf | sequencer.cpp:39 | the step index taken from the counter lies in [0, steps) (below the magnitude of a negative bar length) |
| StepEngine.BoundaryStep | sequencer.cpp:27-39 | until the counter restarts, the k-th boundary plays step k mod steps, and the next boundary plays the following step |
| StepEngine.BarVisitsStepsInOrder | sequencer.cpp:27-39 | until the counter restarts, within any bar boundary j plays step j: the bar visits every step once, in order |
| StepEngine.RestartRepeatsFirstStep | sequencer.cpp:38-39 | with 16 steps, the boundaries at ticks 24000 and 24006 both play step 0, while an unrestarted 24006 would play step 1 |
| StepEngine.HitVelocity | sequencer.cpp:79 | a track value of 1 plays at velocity 100, any other positive value at that value; the velocity is positive |
| StepEngine.TrackHitWhenSounding | sequencer.cpp:78-82 | a track gives at most one hit at a step, exactly when the step lies within its values and its value there is positive (`Sounds`), with the track's note and the velocity `HitVelocity` gives |
| StepEngine.TrackHits | sequencer.cpp:76-83 | a pattern gives no more hits than it has tracks, each with a positive velocity; `TrackHitsExactly` gives the exact content |
| StepEngine.TrackHitsExactly | sequencer.cpp:77-83 | a hit is played exactly when some track of that note has a positive value at the step, at the velocity that value gives |
| StepEngine.TrackHitsAscending | sequencer.cpp:77-83 | tracks in ascending note order give hits in ascending note order |
| StepEngine.SelectPattern | sequencer.cpp:65-74 | a known fill is chosen first, otherwise the selected variation if the style has it; nothing is chosen exactly when neither exists |
| StepEngine.DrumStep | sequencer.cpp:52-86 | a due resolution plays exactly the resolution hits and clears the pending resolution; otherwise every hit has a positive velocity; the fill selection changes only by the hand-off on the last step, which arms the pending resolution with it; the pending resolution otherwise changes only by being cleared at step 0 (the lemmas below give each case exactly) |
| StepEngine.ResolutionStep | sequencer.cpp:54-63 | at step 0 with a resolution pending and resolution hits in the style, exactly those hits are played and the pending resolution is cleared |
| StepEngine.PendingClearedAtBarStart | sequencer.cpp:54-74 | a pending resolution is cleared at step 0 even without resolution hits; only a known fill in a one-step bar re-arms it there |
| StepEngine.FillHandOff | sequencer.cpp:66-72 | a known fill on the last step plays, becomes the pending resolution, and is deselected |
| StepEngine.FillBeforeBarEnd | sequencer.cpp:66-69 | before the last step a known fill plays and stays selected |
| StepEngine.UnknownFillFallsBack | sequencer.cpp:66-74 | an unknown or non-positive fill id plays the selected variation (or nothing when it is missing) and leaves the fill selection alone |
| StepEngine.PatternHitsAreNoteOns | sequencer.cpp:76-83 | every hit a pattern sends is a note-on |
| StepEngine.DrumNotesDistinct | sequencer.cpp:52-86 | the notes one drum step records are distinct (ascending) |
| StepEngine.FillThenResolution | sequencer.cpp:54-72 | a fill on the last step followed by step 0 with resolution {60: 100} plays exactly note-on 60 at velocity 100 and clears the hand-off |
| StepEngine.ClampNote | sequencer.cpp:104 | the clamped note lies in [0, 127], equals the input inside that range, and is the nearer bound outside it |
| StepEngine.Transpose | sequencer.cpp:99-104 | a moved pitch lies in [0, 127], and is note + 12 * octave whenever that is in range |
| StepEngine.ArpOnceIndex | sequencer.cpp:110-113 | arp-once picks a valid position, and trigger value k picks position k - 1 for k up to the number of pitches |
| StepEngine.ArpLoopIndex | sequencer.cpp:114-120 | arp-loop picks a valid position, and always the only pitch when one is held |
| StepEngine.ArpLoopUpDown | sequencer.cpp:114-120 | over one cycle of 2n - 2 values arp-loop goes up through every position and back down through the inner ones |
| StepEngine.ArpPeriodic | sequencer.cpp:110-120 | arp-once repeats after n trigger values and arp-loop after 2n - 2 |
| StepEngine.ArpLoopExample | sequencer.cpp:114-120 | arp-loop over [60, 64, 67] with values 1 to 6 plays 60, 64, 67, 64, 60, 64 |
| StepEngine.ArpHit | sequencer.cpp:122-127 | an arpeggio pitch sends nothing exactly when it is the "no note" value -1, otherwise the one pitch moved and clamped at the pattern velocity |
| StepEngine.TriggerAt | sequencer.cpp:93-97 | the trigger value at a tick is the pattern's value at step (tick / 6) % steps when that step lies within the pattern, and 0 (a rest) past the pattern's end; a non-zero value is one of the pattern's values, and it is never negative in an arpeggio mode |
| StepEngine.AcompStep | sequencer.cpp:88-128 | the accompaniment of a step has no more hits than held pitches, every hit in [0, 127], and sounds only for a known pattern whose trigger value at the tick is not 0; `AcompSilence`, `ChordVoicesAllHeld` and `ArpPlaysOne` give it exactly |
| StepEngine.ChordHits | sequencer.cpp:101-107 | a chord has one hit per held pitch, in order, each the pitch moved and clamped, at the pattern velocity |
| StepEngine.AcompSilence | sequencer.cpp:88-128 | the accompaniment is silent exactly when the pattern is missing, nothing is held, the step rests or lies past the pattern, the mode is unknown, or an arpeggio picks the "no note" value |
| StepEngine.AcompHitsInRange | sequencer.cpp:99-127 | every accompaniment hit lies in [0, 127] and has the selected pattern's velocity |
| StepEngine.ChordVoicesAllHeld | sequencer.cpp:101-107 | a sounding chord step voices every held pitch, moved, in ascending order |
| StepEngine.ArpPlaysOne | sequencer.cpp:109-127 | a sounding arpeggio step over in-range pitches plays exactly the one pitch its trigger value picks, moved |
| StepEngine.SingleHeldAlwaysPicked | sequencer.cpp:113-115 | with one held pitch, both arpeggio modes pick it for every trigger value |
| StepEngine.ChordExample | sequencer.cpp:101-107 | one octave up, the chord [60, 64, 67] sends 72, 76 and 79 |
| Sequencing.Sequencer.constructor | electone.h:79-92 | a new sequencer is stopped, every counter and selector and the octave shift are 0, the three note lists are empty, and nothing has been sent |
| Sequencing.Sequencer.SendNote | sequencer.cpp:175-181 | a note send appends exactly its note message |
| Sequencing.Sequencer.SendProgramChange | sequencer.cpp:183-186 | a program send appends exactly its program change |
| Sequencing.Sequencer.SendNoteOffs | sequencer.cpp:189-190 | appends a note-off for each listed note, in order |
| Sequencing.Sequencer.Panic | sequencer.cpp:188-193 | note-offs for every sounding drum note, then every sounding accompaniment note; both lists end empty |
| Sequencing.Sequencer.OnNoteInput | sequencer.cpp:9-20 | a note-on adds the pitch only when absent, a note-off removes every occurrence and keeps all other pitches; the list stays ascending and duplicate-free |
| Sequencing.Sequencer.PlayDrumStep | sequencer.cpp:52-86 | sends and records exactly the hits of the drum step function and sets the pending resolution and fill it gives |
| Sequencing.Sequencer.PlayPattern | sequencer.cpp:64-85 | plays the selected fill or variation and hands a known fill over to the pending resolution on the last step only |
| Sequencing.Sequencer.PlayDrumHits | sequencer.cpp:55-61 | sends each resolution hit on the drum channel and records its note, in order |
| Sequencing.Sequencer.PlayTracks | sequencer.cpp:76-84 | sends the hit of every sounding track on the drum channel and records its note, in track order |
| Sequencing.Sequencer.PlayTrack | sequencer.cpp:77-82 | sends and records one track's hit exactly when it sounds at the step |
| Sequencing.Sequencer.PlayAcompStep | sequencer.cpp:88-129 | sends and records exactly the accompaniment hits the step function gives for the selected pattern, held pitches, octave shift and tick |
| Sequencing.Sequencer.PlayChord | sequencer.cpp:101-108 | sends and records every held pitch, moved and clamped, in order |
| Sequencing.Sequencer.PlayArpNote | sequencer.cpp:122-127 | sends and records the picked pitch, moved and clamped, unless it is the "no note" value |
| Sequencing.PickArpNote | sequencer.cpp:110-121 | arp-once and arp-loop pick the held pitch at the positions the index functions give; any other mode picks "no note" |
| Sequencing.Sequencer.OnClock | sequencer.cpp:23-49 | stopped: nothing changes. Between boundaries: only the counter advances. At a boundary: note-offs come first; with drums, the restarted counter's step index lies in [0, steps) and the drum then accompaniment hits follow; the note lists hold exactly this step's notes; the counter advances by one; Valid() is kept |
| Sequencing.Sequencer.Boundary | sequencer.cpp:27-47 | silences and forgets the sounding notes, then plays the step when the style has drums, leaving the counters alone when it has none |
| Sequencing.Sequencer.PlayStep | sequencer.cpp:35-46 | restarts the counter past the limit, sets the step index from it, plays the drum step and, when the style has one, the accompaniment step |
| Sequencing.Sequencer.OnStart | sequencer.cpp:133-139 | playing, with the counter, step index and pending resolution at 0, and program 123 sent on the drum channel then the accompaniment channel |
| Sequencing.Sequencer.OnStop | sequencer.cpp:141-145 | stopped, with a note-off for every sounding note and both note lists empty |
| Sequencing.Sequencer.SetStyle | sequencer.cpp:147-153 | selects the style; sends the selected pattern's program exactly when that style has it, otherwise sends nothing |
| Sequencing.Sequencer.SetVar | sequencer.cpp:155 | selects the variation; Valid() is kept |
| Sequencing.Sequencer.SetFill | sequencer.cpp:156 | selects the fill, any id; Valid() is kept |
| Sequencing.Sequencer.SetAcompPattern | sequencer.cpp:158-164 | selects the pattern; sends its program exactly when the current style has it, otherwise sends nothing |
| Sequencing.Sequencer.ChangeOctave | sequencer.cpp:166-171 | the octave shift moves by the direction and is clamped to [-3, 3] |
| Sequencing.FiveOctavesUp | sequencer.cpp:166-171 | five octave-up presses from no shift stop at +3 |
| Sequencing.StopThenClock | sequencer.cpp:141-145 | a stop followed by a clock pulse sends exactly the stop's note-offs (drum notes, then accompaniment notes) and nothing from the pulse, and leaves no note recorded as sounding |

## Left out

- main.cpp is not part of this model. It covers MIDI port discovery, callbacks, status-byte dispatch, the sound-patch, volume and SysEx handling, and the shutdown command: input and output over a MIDI library. Its filtering of fill id 0 before `setFill` (main.cpp:84) is not modelled; `SetFill` accepts any id, as the sequencer does.
- loader.cpp is not part of this model: it is YAML parsing. Its result is taken as the two fixed pattern tables given to the constructor.
- `setDrumDatabase` and `setAcompDatabase` are folded into the constructor. The tables are set once before playback and never change, so they are `const` fields.
- The mutex and lock guards are not modelled. Each public method is one atomic sequential step.
- Bytes sent through `RtMidiOut` are not modelled. A send is an abstract `Event`, so the status-byte arithmetic and the narrowing of program, note and velocity to bytes are left out.
- Fixed-width integers are not modelled:
  - the `long` tick counter;
  - the `int` note arithmetic;
  - `numNotes * 2`.

  They are unbounded integers. The counter resets past 24000 only while the current style has drums; under a style without them it grows by one per pulse, and the model does not capture the `long` overflow that would eventually follow.
- The sequencer's RtMidi output port handle and electone.h's port names and sound-patch tables are outside the sequencer's step logic and are not modelled.
- Sequencing.Sequencer.constructor: requires well-formed pattern tables. The source accepts any tables. A zero bar length divides by zero at sequencer.cpp:39 and :93. A negative trigger value v in an arp-once or arp-loop pattern indexes the held list out of range for some numbers n of held pitches, because C++'s `%` truncates toward zero. For arp-once that is every n not dividing 1 - v (sequencer.cpp:113). For arp-loop with n >= 2 it is every n for which 2n - 2 does not divide 1 - v (sequencer.cpp:118-119). The model excludes every negative trigger value in these two modes, so it does not cover the cases where the source reads the held list normally: arp-once when n divides 1 - v, which plays the lowest held pitch (for example one held pitch and v = -2); arp-loop with one held pitch, which plays that pitch; and arp-loop with n >= 2 when 2n - 2 divides 1 - v, which plays the lowest held pitch.
- HeldNotes.Remove: for an unsorted input it does not state that the kept pitches stay in their order. The held list is always ascending, and then the result is fixed by its elements (`HeldNotes.SortedByElements`).
