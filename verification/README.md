# 303 pattern converters, modelled in Dafny

This project models the core of a small toolkit that turns TB-303 style
bass-line patterns from three sources into one canonical step grid. A row
of the grid is `note, up, down, gate, slide, accent`. The toolkit then
serialises those grids into a training text.

- `common.dfy` (module `Common`): the twelve-symbol pitch alphabet
  (`C d D e E F g G a A b B`), its inverse table, and the default cell
  values of a blank grid.
- `pattern.dfy` (module `Pattern`) holds what the converters share:
  - the canonical row;
  - the clipped up/down split of an octave offset;
  - the ways a conversion can fail (`Result`);
  - two integer-division facts.
- `midi_grid.dfy`, `midi_walk.dfy`, `midi_convert.dfy`, `midi_props.dfy`,
  `midi_examples.dfy`: the MIDI event walk.
  - A pure specification (`MidiGrid`, `MidiWalk`) steps through the
    messages. It keeps the beat position, the count of sounding notes, the
    "ended on a tie" flag and the grid.
  - `MidiConvert` is the in-place version. It works on a fixed-length
    array, with the rest backfill, the backward slide scan and the forward
    fill as loops. Each method is proved equal to the specification.
  - `MidiProperties` proves what the walk guarantees. `MidiExamples`
    works three short tracks through the walk.
  - Time is kept exactly in integer ticks (24 per step):
    - `on_beat = 1 + P/24`, so `int(on_beat) = 1 + P div 24`.
    - The tie over the end is `P == 24·n`. It pins `P` to `24·n − 12`.
    - The rest test `time/24 > 0.5` is `time > 12`.
- `octave.dfy` (module `OctaveNormalizer`): `convert_note_to_note_octave`.
  It turns an absolute pitch into a symbol plus up/down counts relative to
  the rounded mean octave. `round` is ties-to-even, as in the source. The
  module also proves octave-shift invariance and where it stops holding.
- `phoscyon.dfy` (module `Phoscyon`): `process_phoscyon_pattern`. It folds
  each step's note into 0..11 and adjusts the octave buttons, filling a
  preallocated table.
- `abl3.dfy` (module `Abl3`): the ABL3 converters.
  - The note-name reader (`c-`, `c#`).
  - The short layout: symbol plus octave digit, relative to the truncated
    mean digit.
  - The long layout: note wrap and up bump.
- `tokenizer.dfy` (module `Tokenizer`): `tokenize_pattern` and the
  corpus rule of `dump_patterns`.
  - Both are loops proved equal to specification functions.
  - A terminator-based reader proves the round trip.

Failures are values (`Err(...)`), not preconditions. Every pandas `.loc`
access outside steps 1..n becomes `Err(MissingStep)`. A failed `assert`, a
NaN cast to int and an empty mean each become their own `Err(...)` case.

A note-off that lands exactly on the next step boundary leaves the attack
step with slide 1. At that point the note-off sees the next step, which is
still unset. So the backward scan (midi_to_pattern.py:124-138) marks the
attack step with slide 1. The branch that clears the slide
(midi_to_pattern.py:142-144) runs only for a note-off inside the attack's
own step. `MidiExamples.OneStepNote` proves that a one-step note ends
with slide 1.

## Model

| member | source | states |
|---|---|---|
| Common.NoteChar | common.py:8-21 | the symbol of pitch class n is the table entry, lies in the inverse table's domain and maps back to n |
| Common.NoteValue | common.py:23-36 | the value of a symbol is a pitch class whose forward entry is that symbol |
| Common.TablesDomains | common.py:8-36 | the forward table is defined exactly on 0..11 and the inverse exactly on the twelve symbols |
| Common.TablesInverse | common.py:8-36 | the two tables are inverse to each other in both directions |
| Common.SymbolsDistinct | common.py:8-21 | the twelve symbols are pairwise distinct |
| Common.DefaultsOff | common.py:1-5 | the unset-note sentinel -1 is no pitch class; the gate, accent, tie and slide defaults are 0 |
| Pattern.UpDown | midi_to_pattern.py:175-176 | up and down lie in 0..4, at least one is 0, and up − down is the offset clamped to ±4 |
| MidiGrid.EmptyGrid | midi_to_pattern.py:31-45 | a blank grid has exactly n steps, each with note -1 and gate, accent and slide 0 |
| MidiGrid.RestFilled | midi_to_pattern.py:83-100 | the backfill fails exactly when the rest reaches before step 1 or a rested step has an open gate; otherwise rested steps take the new pitch (rest from step 1) or the pitch before the rest, with gate, accent and slide kept, and no other step changes |
| MidiGrid.RunStart | midi_to_pattern.py:124-138 | the scan start is the nearest step before k holding the pitch; none exists exactly when no earlier step holds it |
| MidiGrid.RunMarked | midi_to_pattern.py:124-138 | the backward scan fails exactly when no step before k holds the pitch, and keeps the grid length |
| MidiGrid.RunMarkedMeaning | midi_to_pattern.py:124-138 | a successful scan rewrites, with the pitch and slide 1, exactly the steps from the nearest earlier step holding the pitch (included) to step k − 1, and leaves all others alone |
| MidiGrid.RunMarkedCells | midi_to_pattern.py:129-131 | every step after the scan is either untouched or the old step with the pitch and slide 1 |
| MidiGrid.LastSet | midi_to_pattern.py:153-154 | the forward-fill value at a step, by recursion to the nearest earlier set step; its meaning is stated by LastSetNearest |
| MidiGrid.LastSetNearest | midi_to_pattern.py:153-154 | the forward-fill value is -1 exactly when every step so far is unset, and otherwise the pitch of the nearest set step |
| MidiGrid.Filled | midi_to_pattern.py:153-155 | the fill and int cast fail exactly when step 1 is unset, and keep the length |
| MidiGrid.FilledMeaning | midi_to_pattern.py:153-155 | after the fill no step is unset, set pitches and all flags stay, and every unset step takes the nearest earlier set pitch |
| MidiWalk.StartNote | midi_to_pattern.py:72-100 | a note-on keeps the grid length |
| MidiWalk.EndNote | midi_to_pattern.py:103-147 | a note-off keeps the grid length and lowers the sounding count by one |
| MidiProperties.NoteOnRest | midi_to_pattern.py:72-100 | a note-on at step k = int(on_beat) with rest_len = t div 24 + 1: after a rest (t > 12, and the only sounding note) it fails exactly when step k is missing, the rest reaches before step 1, or a rested step has an open gate; on success the rested steps take the new pitch (rest from step 1) or the pitch before the rest, and every step other than k and the rested ones is unchanged |
| MidiProperties.NoteOffRun | midi_to_pattern.py:103-138 | a note-off at step k that does not hold its pitch: step k takes the pitch exactly when it was the only sounding note and t ≠ 0; the steps from the nearest earlier step holding the pitch up to k − 1 take the pitch and slide 1; all other steps stay; it fails exactly when no earlier step holds the pitch; the sounding count drops by one |
| MidiWalk.Tied | midi_to_pattern.py:107-110 | the tie over the end sets slide 1 on step n and nothing else in the grid, pins the position inside step n, sets ended and keeps the count |
| MidiWalk.TieChecked | midi_to_pattern.py:105-110 | off the end the state is unchanged; at on_beat == n + 1 it is the tied state, at step n with ended set; the grid length and count are kept |
| MidiWalk.Run | midi_to_pattern.py:64-147 | the message loop keeps the grid length (flags, pitches and count over a run in RunKeeps) |
| MidiWalk.Walk | midi_to_pattern.py:48-157 | a successful conversion has exactly n steps (no unset pitch, only played pitches, 0/1 flags in WalkResolved; the in-place loop is MidiConvert.MidiToPattern) |
| MidiWalk.Advance | midi_to_pattern.py:64-69 | one message keeps the grid length |
| MidiConvert.FillRest | midi_to_pattern.py:89-100 | the in-place backfill loop ends in exactly the grid (or failure) that RestFilled specifies |
| MidiConvert.ScanBack | midi_to_pattern.py:124-138 | the in-place `while True` scan ends in exactly the grid (or failure) that RunMarked specifies |
| MidiConvert.FillForward | midi_to_pattern.py:153-155 | the in-place forward fill ends in exactly the grid (or failure) that Filled specifies |
| MidiConvert.StartNoteAt | midi_to_pattern.py:72-100 | the in-place note-on produces the state StartNote specifies |
| MidiConvert.EndNoteAt | midi_to_pattern.py:103-147 | the in-place note-off produces the state EndNote specifies, tie pin included |
| MidiConvert.AdvanceNoteOn | midi_to_pattern.py:68-100 | the loop body on a note-on (time increment, then the note) produces the state Advance specifies |
| MidiConvert.AdvanceNoteOff | midi_to_pattern.py:68-147 | the loop body on a note-off (time increment, then the note) produces the state Advance specifies |
| MidiConvert.AdvanceAt | midi_to_pattern.py:64-147 | one iteration of the message loop produces the state Advance specifies |
| MidiConvert.MidiToPattern | midi_to_pattern.py:48-157 | the whole in-place conversion returns exactly the specified walk's result |
| MidiProperties.StartNoteKeeps | midi_to_pattern.py:75-100 | a note-on keeps all flags 0/1 and writes only its own pitch or pitches already present |
| MidiProperties.EndNoteKeeps | midi_to_pattern.py:103-147 | a note-off keeps all flags 0/1 and writes only its own pitch |
| MidiProperties.AdvanceKeeps | midi_to_pattern.py:64-147 | one message keeps flags 0/1, introduces no foreign pitch and moves the sounding count by +1 per note-on and −1 per note-off |
| MidiProperties.RunKeeps | midi_to_pattern.py:64-147 | over a run of messages: length kept, flags 0/1, only the track's pitches, and the sounding count changes by note-ons minus note-offs |
| MidiProperties.WalkResolved | midi_to_pattern.py:147-155 | a successful conversion has n steps, no unset pitch, only pitches the track played, 0/1 flags, and as many note-offs as note-ons |
| MidiProperties.TieSlidesLastStep | midi_to_pattern.py:107-147 | a note-off at on_beat == n + 1 leaves the last step sliding, sets ended, pins the position to step n and lowers the count; when step n already holds the pitch, that slide is the only change to the grid |
| MidiProperties.SameStepReleaseClearsSlide | midi_to_pattern.py:140-147 | a note-off on a step already holding its pitch succeeds, clears that step's slide unless the walk ended on a tie, leaves every other step, the position and the tie flag as they were, and lowers the count by one |
| MidiProperties.NoteOffPastGrid | midi_to_pattern.py:113 | a note-off whose step lies past the grid, away from the tie, fails with a missing step |
| MidiProperties.NoteOnWritesAttack | midi_to_pattern.py:75-80 | a note-on writes the pitch, gate 1 and accent (velocity > 126) at step int(on_beat), keeps its slide, and raises the count by one |
| MidiProperties.AdvancePosition | midi_to_pattern.py:65-69 | meta messages change nothing; any other message advances the position by its delta time, except the end tie which pins it to n + 0.5 |
| MidiExamples.OneStepNote | midi_to_pattern.py:64-157 | on a four-step grid, a one-step note gives step 1 with gate 1 and slide 1, and three forward-filled steps with closed gates |
| MidiExamples.TwoStepLegato | midi_to_pattern.py:113-138 | on a four-step grid, a two-step note slides on both of its steps and the remaining steps are forward filled |
| MidiExamples.RestBackfill | midi_to_pattern.py:83-100 | on a six-step grid, a three-step rest before a second note is backfilled with the earlier pitch; leaving that note open fails the final count check |
| OctaveNormalizer.RoundHalfEven | midi_to_pattern.py:167 | the result is within half a unit of num/den, and even at a tie |
| OctaveNormalizer.MeanOctave | midi_to_pattern.py:167 | the mean octave is within half an octave of mean(note) / 12 |
| OctaveNormalizer.NormalizeCell | midi_to_pattern.py:170-176 | a step's row has the symbol of its pitch class, up − down equal to its floor octave minus the mean octave clamped to ±4, both in 0..4 with one of them 0, and its own flags |
| OctaveNormalizer.ConvertNoteToNoteOctave | midi_to_pattern.py:167-177 | fails exactly on an empty grid; otherwise each row has the symbol of note mod 12, up/down in 0..4 with one of them 0 and up − down = clamp(note div 12 − mean octave, ±4), and the flags are kept |
| OctaveNormalizer.NormalizeCellInverse | midi_to_pattern.py:170-176 | within four octaves of the mean, symbol, up and down give back the absolute pitch |
| OctaveNormalizer.RoundShift | midi_to_pattern.py:167 | adding k to a quotient adds k to its rounding, except an odd k at a tie |
| OctaveNormalizer.MeanOctaveTransposed | midi_to_pattern.py:167 | transposing every pitch by k octaves moves the mean octave by k (off a tie, or for even k) |
| OctaveNormalizer.NormalizeCellShift | midi_to_pattern.py:170-176 | a step moved by k octaves, read against a mean moved by k, gives the same row |
| OctaveNormalizer.ShiftInvariant | midi_to_pattern.py:160-176 | transposing every pitch by k octaves leaves the converted rows unchanged, off a tie or for even k |
| OctaveNormalizer.OddShiftAtTieDiffers | midi_to_pattern.py:167-176 | the single notes 42 and 54 (one octave apart, both at a tie) convert to different down counts |
| OctaveNormalizer.ConvertTrack | midi_to_pattern.py:190-192 | the conversion of a track fails exactly when its walk on the default 16 steps fails, and otherwise gives 16 rows |
| OctaveNormalizer.ConvertTrackCanonical | midi_to_pattern.py:190-192 | the walk on the default 16-step grid plus normalisation gives 16 rows with alphabet symbols, up/down in 0..4 with one 0, and 0/1 flags |
| Phoscyon.Buttons | phoscyon_to_pattern.py:53-54 | the octave buttons are equal after the reset exactly when both are 0; unequal buttons are kept |
| Phoscyon.FoldStep | phoscyon_to_pattern.py:50-70 | the folded note lies in 0..11 and is congruent to the input note modulo 12; gate, slide and accent are copied |
| Phoscyon.FoldStepOctaves | phoscyon_to_pattern.py:53-62 | equal buttons reset to 0; a negative note adds to down the least count of octaves that lifts it to 0 or above; a note of 12 or more adds exactly 1 to up; a note in 0..11 passes unchanged |
| Phoscyon.FoldKeepsPitchIff | phoscyon_to_pattern.py:55-62 | the absolute pitch is kept exactly when the note is below 24 |
| Phoscyon.ProcessPhoscyonPattern | phoscyon_to_pattern.py:47-75 | fails exactly on an empty step list; otherwise row i is step i folded, one row per step |
| Abl3.IndexOf | ABL3_to_pattern.py:53-55 | the index is the first position holding the symbol |
| Abl3.NaturalIndex | ABL3_to_pattern.py:52-55 | each natural letter's alphabet entry has its pitch class; the next entry exists exactly unless the letter is B, and is one semitone higher |
| Abl3.NaturalNoteMeaning | ABL3_to_pattern.py:50-51 | "x-" gives the symbol of x's own pitch class |
| Abl3.SharpNoteMeaning | ABL3_to_pattern.py:52-55 | "x#" gives the symbol one semitone above x, and "b#" fails |
| Abl3.NoteToCharOutcomes | ABL3_to_pattern.py:44-55 | text under two characters fails; "x-" gives upper(x); a sharp fails exactly on a non-note letter or B; any other second character gives no symbol |
| Abl3.OctaveOf | ABL3_to_pattern.py:67 | the read succeeds exactly when the text has a third character that is a decimal digit, and then yields that digit's value 0..9; a text under three characters fails as too short |
| Abl3.Abl3NoteToChar | ABL3_to_pattern.py:44-55 | text under two characters fails as too short; "x-" gives upper(x); any second character other than '-' and '#' gives no symbol; a successful sharp gives an alphabet symbol (full outcomes in NoteToCharOutcomes, NaturalNoteMeaning, SharpNoteMeaning) |
| Abl3.Octaves | ABL3_to_pattern.py:67 | all digits are read in row order, or some row's digit is unreadable |
| Abl3.NoteSymbols | ABL3_to_pattern.py:66-76 | all symbols are read from the first two characters in row order, or some row's name fails |
| Abl3.OctaveColumns | ABL3_to_pattern.py:68-73 | each up − down is digit − int(mean) clamped to ±4, both in 0..4 with one of them 0 |
| Abl3.ConvertAbl3Short | ABL3_to_pattern.py:58-78 | fails exactly on no rows, an unreadable digit or an unreadable name; otherwise one row per input row |
| Abl3.ShortRowsMeaning | ABL3_to_pattern.py:66-77 | each converted row carries the symbol its name reads as, up and down in 0..4 with one of them 0, and the row's own gate, slide and accent |
| Abl3.ShortOctaveOffsets | ABL3_to_pattern.py:66-73 | each row's up − down is its digit minus the truncated mean digit, clamped to ±4 |
| Abl3.OctaveColumnsShiftInvariant | ABL3_to_pattern.py:66-73 | moving every octave digit by the same amount, keeping all digits non-negative, leaves the up/down columns unchanged |
| Abl3.ConvertLongRow | ABL3_to_pattern.py:103-106 | an input note in -12..12 yields 0..11, congruent modulo 12; up rises by one exactly for a note of 12; down and flags are kept |
| Abl3.LongKeepsPitchIff | ABL3_to_pattern.py:103-105 | the absolute pitch is kept exactly when the input note is not negative |
| Abl3.ConvertAbl3Long | ABL3_to_pattern.py:95-108 | one converted row per input row, in order |
| Tokenizer.Taken | create_training_file.py:26 | at most six cells after the step index are emitted |
| Tokenizer.JoinedSplit | create_training_file.py:26-28 | splitting zipped cells and separators on the separators recovers the zipped cells |
| Tokenizer.LineFields | create_training_file.py:25-29 | a row's line holds no line break, and splitting it on the separators gives the row's emitted cells |
| Tokenizer.Line | create_training_file.py:26-29 | one row's text; its meaning is stated by LineFields (no break in the body, the fields split back) and AppendLine |
| Tokenizer.Tokenize | create_training_file.py:21-31 | tokenize_pattern as a function; its meaning is stated by TokenizeLines, TokenizeRoundTrip and TokenizeEndsLine, and TokenizePattern is the loop |
| Tokenizer.Corpus | create_training_file.py:41-48 | the dump_patterns text; its meaning is stated by CorpusSplit, and DumpPatterns is the loop |
| Tokenizer.TokenizeLines | create_training_file.py:25-29 | the text has exactly one line per row, in row order, when no emitted cell holds a line break |
| Tokenizer.TokenizeRoundTrip | create_training_file.py:22-29 | reading the text back gives each row's first six cells after the step index, when no cell holds a separator or line break |
| Tokenizer.TokenizeEndsLine | create_training_file.py:29 | a non-empty pattern text ends with a line break |
| Tokenizer.CorpusSplit | create_training_file.py:41-48 | the corpus lines are each pattern's lines followed by a "~" line, when no emitted cell holds a line break |
| Tokenizer.AppendLine | create_training_file.py:26-29 | the inner loop appends exactly one row's line |
| Tokenizer.TokenizePattern | create_training_file.py:21-31 | the nested loops build exactly the specified text, which is empty exactly for an empty pattern |
| Tokenizer.DumpPatterns | create_training_file.py:41-48 | the output is each pattern's text followed by "~\n", in order |

## Left out

- MIDI file decoding with mido, the file-existence check and CSV writing
  (midi_to_pattern.py:182-196) are left out. The input is an already
  parsed message list: meta, note-on, note-off or another channel
  message, each with a delta time.
- The single-track `assert` (midi_to_pattern.py:54) is taken as given:
  the input is one track.
- Folder walking, directory creation, output naming and the `xml` skip
  scan are file-system glue and are not modelled.
- XML parsing of Phoscyon steps is not modelled. The ABL3 file readers
  (`is_short_ABL3`, `load_ABL3_short`, `load_ABL3_long`) are not modelled
  either. Steps and rows come in as already-parsed records.
- `load_pattern` and the file writes in `dump_patterns` are not modelled.
  A pattern table comes in as rows of cell texts (what `str` gives for each
  value), step index first.
- Floating point is replaced by exact integer arithmetic:
  - the beat position uses integer ticks;
  - the mean pitch is compared through integer sums;
  - the ABL3 mean is an integer division of a non-negative sum.
  The source's `on_beat` is a running float sum of `time / 24`, which is
  not exact in binary. Three 8-tick deltas give `on_beat` =
  1.9999999999999998, so `int(on_beat)` is 1, while the model's step after
  24 ticks is 2. The tie test `on_beat == n + 1` can miss in the same way.
  Any delta that is not a multiple of 3 ticks can move a note to an
  earlier step or miss the tie; the model gives the exact-arithmetic
  result.
- A pandas `.loc` write outside steps 1..n appends a row. The model
  treats it as a failure (`MissingStep`) instead of growing the table.
- Upper-casing of note letters covers ASCII letters only. The ABL3 note
  names are ASCII.
- Abl3.OctaveOf: only the ASCII digits 0-9 are read as octave digits.
  Python's `int` would also accept other Unicode decimal digits.
- OctaveNormalizer.ShiftInvariant: it is weaker than the promise in the
  docstring at midi_to_pattern.py:160-165. It requires the mean not to sit
  at a tie, or k to be even. With ties-to-even rounding the promise is
  false for odd k at a tie, as `OddShiftAtTieDiffers` shows.
- Phoscyon.FoldStep: a note of 24 or more loses all but one of its
  octaves, because up rises by exactly one. This is what the code does,
  and `FoldKeepsPitchIff` states it.
- `get_empty_pattern_df` in phoscyon_to_pattern.py:30-44 is the same
  function as in midi_to_pattern.py:31-45. `MidiGrid.EmptyGrid` models the
  MIDI one. `Phoscyon.ProcessPhoscyonPattern` prefills its table with its
  own default rows (the blank note, gate, accent and slide, with up and
  down 0 in place of the columns the source adds later). Every row is
  overwritten before the table is returned, so the prefill is never
  observable.
- An empty Phoscyon step list gives a table with no up/down columns, so
  the column selection at phoscyon_to_pattern.py:73 fails. The model
  returns `Err(MissingColumns)`.
