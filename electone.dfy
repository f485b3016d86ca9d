/** The shared declarations of the Electone accompaniment engine: the fixed MIDI
    channels, the pattern records read from the style files, their default
    values, and what a well-formed pattern database looks like. */
module Electone {

  /** Channel of the keyboard part whose held notes feed the accompaniment. */
  const ChanInputAcomp: int := 1
  /** Output channel of the drum part (the General MIDI percussion channel). */
  const ChanOutDrums: int := 9
  /** Output channel of the chord and arpeggio part. */
  const ChanOutAcomp: int := 4

  /** One track of a drum pattern: the drum note and its value for every step
      (0 = silent, 1 = default velocity, larger = that velocity). */
  datatype Track = Track(note: int, values: seq<int>)

  /** A note together with the velocity it is sent with. */
  datatype Hit = Hit(note: int, velocity: int)

  /** A drum pattern. The source keeps the tracks in an ordered map keyed by
      note; here they are the list that map iterates, ascending by note. */
  datatype DrumPattern = DrumPattern(tracks: seq<Track>)

  /** A drum style: bar length in steps, variations and fills selected by id,
      and the resolution hits (note to velocity, ascending by note) that end a fill. */
  datatype DrumStyle = DrumStyle(
    steps: int,
    variations: map<int, DrumPattern>,
    fills: map<int, DrumPattern>,
    resolution: seq<Hit>)

  /** An accompaniment pattern: output program, mode name, velocity, length
      in steps, and one trigger value per step (0 = rest, k = the k-th
      arpeggio position counting from 1). */
  datatype AcompPattern = AcompPattern(
    program: int,
    mode: string,
    velocity: int,
    steps: int,
    pattern: seq<int>)

  /** An accompaniment style: its patterns selected by id. */
  datatype AcompStyle = AcompStyle(patterns: map<int, AcompPattern>)

  /** The modes the accompaniment engine distinguishes by name. */
  datatype Mode = Chord | ArpOnce | ArpLoop | Other

  /** The mode a pattern's mode name selects: the three names the engine
      compares against, anything else being no mode it plays. */
  function ModeOf(name: string): (m: Mode)
    ensures m == Chord <==> name == "chord"
    ensures m == ArpOnce <==> name == "arp-once"
    ensures m == ArpLoop <==> name == "arp-loop"
    ensures m == Other <==> name != "chord" && name != "arp-once" && name != "arp-loop"
  {
    if name == "chord" then Chord
    else if name == "arp-once" then ArpOnce
    else if name == "arp-loop" then ArpLoop
    else Other
  }

  /** A drum style as the loader starts it: 16 steps and no patterns. */
  const DefaultDrumStyle: DrumStyle := DrumStyle(16, map[], map[], [])

  /** An accompaniment pattern as the loader starts it. */
  const DefaultAcompPattern: AcompPattern := AcompPattern(0, "chord", 100, 16, [])

  predicate TracksAscending(tracks: seq<Track>)
  {
    forall i, j :: 0 <= i < j < |tracks| ==> tracks[i].note < tracks[j].note
  }

  predicate HitsAscending(hits: seq<Hit>)
  {
    forall i, j :: 0 <= i < j < |hits| ==> hits[i].note < hits[j].note
  }

  predicate DrumPatternValid(p: DrumPattern)
  {
    TracksAscending(p.tracks)
  }

  /** A drum style the engine can play: a non-zero bar length (it divides
      the step counter) and its note-keyed tables in map order. */
  predicate DrumStyleValid(ds: DrumStyle)
  {
    && ds.steps != 0
    && HitsAscending(ds.resolution)
    && (forall v :: v in ds.variations ==> DrumPatternValid(ds.variations[v]))
    && (forall f :: f in ds.fills ==> DrumPatternValid(ds.fills[f]))
  }

  /** An accompaniment pattern the engine can play: a non-zero length (it
      divides the step counter) and, in the two arpeggio modes, no negative
      trigger value (a negative one gives a negative arpeggio index). */
  predicate AcompPatternValid(ap: AcompPattern)
  {
    && ap.steps != 0
    && (IsArpeggio(ap.mode) ==> forall i :: 0 <= i < |ap.pattern| ==> ap.pattern[i] >= 0)
  }

  predicate IsArpeggio(name: string)
  {
    ModeOf(name) == ArpOnce || ModeOf(name) == ArpLoop
  }

  predicate AcompStyleValid(style: AcompStyle)
  {
    forall p :: p in style.patterns ==> AcompPatternValid(style.patterns[p])
  }

  /** Every pattern of a well-formed style is well formed. */
  lemma PatternOfValidStyle(style: AcompStyle, id: int)
    requires AcompStyleValid(style) && id in style.patterns
    ensures AcompPatternValid(style.patterns[id])
  {
  }

  predicate DrumDatabaseValid(db: map<int, DrumStyle>)
  {
    forall s :: s in db ==> DrumStyleValid(db[s])
  }

  predicate AcompDatabaseValid(db: map<int, AcompStyle>)
  {
    forall s :: s in db ==> AcompStyleValid(db[s])
  }

  /** The loader's defaults are playable records: 16 steps and no
      variations, fills or resolution; program 0, chord mode at velocity 100,
      16 steps and an empty (silent) pattern. */
  lemma DefaultsAreValid()
    ensures DrumStyleValid(DefaultDrumStyle) && DefaultDrumStyle.steps == 16
    ensures DefaultDrumStyle.variations == map[] && DefaultDrumStyle.fills == map[]
    ensures DefaultDrumStyle.resolution == []
    ensures AcompPatternValid(DefaultAcompPattern)
    ensures DefaultAcompPattern.program == 0 && ModeOf(DefaultAcompPattern.mode) == Chord
    ensures DefaultAcompPattern.velocity == 100 && DefaultAcompPattern.steps == 16
    ensures DefaultAcompPattern.pattern == []
  {
  }

  /** The three fixed channels are valid MIDI channels and pairwise distinct. */
  lemma ChannelsDistinct()
    ensures 0 <= ChanInputAcomp < 16 && 0 <= ChanOutDrums < 16 && 0 <= ChanOutAcomp < 16
    ensures ChanOutDrums != ChanOutAcomp
    ensures ChanInputAcomp != ChanOutDrums && ChanInputAcomp != ChanOutAcomp
  {
  }
}
