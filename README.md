# Audio-to-MIDI controller and MIDI-driven LED visualizer, modelled in Dafny

The repository holds two programs.

`audio_to_midi.py` listens to a microphone and plays what it hears as a
single MIDI voice. It works block by block:

- a block at or below RMS 0.0005 is ignored;
- a louder block adapts the gain multiplier by a bang-bang rule;
- it equalizes the spectrum against the pitches heard recently (31 bands,
  split the way `numpy.array_split` splits, with levels from `norm(1, 0.1, ...)`
  of a histogram);
- it picks the lowest bin of largest magnitude and resolves a MIDI note;
- it switches the previous note off, then switches the new one on (unless the
  note resolves to 0), with a velocity that follows the change in loudness.

`code.py` is a CircuitPython LED visualizer driven by a keyboard's MIDI
output. Each pass of its main loop does four things:

- a fresh press of the mode button steps the mode through the seven `MODES`;
- the bytes read from the MIDI port are hexlified and stripped of
  active-sensing `fe` bytes (`defe`);
- the note-ons in the read are recorded in the `notes` dictionary (the chunk
  loop of `parse_midi`);
- every note older than `FADE` (0.75 s) is pruned.

The colour is chosen by `new_old_high` (latest, oldest or loudest note) or by
`high_low` (highest or lowest pitch).

Modules:

- `Stats`, `BandEqualizer`, `Levels`, `Peak` — the pure helpers of
  `audio_to_midi.py`. `BandEqualizer.Equalizer` is also the imperative fill
  of a result array, band by band, with a running index.
- `AudioToMidi` — the controller:
  - `Next` is the loop body as a function of the loop's variables.
  - `Run` folds `Next` over many blocks; the note-exclusivity invariant is
    proved over `Run`.
  - The class `Controller` holds the same variables as fields and updates them
    in place in `Step`. `Step` is proved to agree with `Next`.
- `Hex`, `ActiveSensing` — `binascii.hexlify`, `int(s, 16)` on two digits,
  and `defe`.
- `NoteTable` — the `notes` dictionary. A Python dict keeps its keys in
  insertion order, and `new_old_high`'s stable sort depends on that order, so
  a table is the key order plus the map from key to value.
- `MidiInput` — the chunk loop of `parse_midi` as a function over the hex
  text, and what it records.
- `Selection` — `high_low`, `new_old_high` and the fade-out.
- `Visualizer`:
  - the mode counter and pruning as functions;
  - the chunk loop and the pruning loop as methods with loop invariants;
  - the class `Visualizer`, holding the main loop's `mode`, `pbv`
    (`pressed`) and `notes`.

Inputs that are I/O, floating-point library calls or the clock are
parameters:

- the block's RMS and its magnitude spectrum;
- `noteOf`, for `int(round(freq_to_note(f + 0.000001)))`;
- `histogram`, for `np.histogram(prev_notes, 31)[0]`, required to return 31
  counts that count every value;
- the bytes read from the port;
- `gradient`;
- `clock`, the time of each pass of the chunk loop;
- `now`, the time used by pruning.

Behaviour of the code that the model keeps as written:

- **Band sizes.** `np.array_split` (audio_to_midi.py:131) gives one extra
  element to each of the first `n % 31` bands, so the longer bands come first.
- **Flat histogram.** `norm` (audio_to_midi.py:140-152) divides by
  `max - min` with no guard. `Levels.HistogramNotFlat` shows the division is
  always defined in this controller: 100 remembered pitches cannot fill 31
  bands evenly.
- **Gain at the bounds.** The multiplier shrinks only when some level is
  strictly beyond 0 or 127 (audio_to_midi.py:219), not when it is exactly at
  a bound.
- **Note 0.** A note resolving to 0 is stored in `note` (audio_to_midi.py:230)
  and skips the note-on (audio_to_midi.py:233). The next active block
  therefore sends a note-off for note 0.
- **Shutdown.** The loop (audio_to_midi.py:195) never ends, so no note-off is
  sent at shutdown.

## Model

| member | source | states |
|---|---|---|
| Stats.Max | audio_to_midi.py:217-219 | `max(prev_levels)`: an element of the list that no element exceeds |
| Stats.Min | audio_to_midi.py:217-219 | `min(prev_levels)`: an element of the list that exceeds no element |
| Stats.SumConstant | audio_to_midi.py:167 | a list of equal counts sums to its length times the count |
| BandEqualizer.BandStartClosed | audio_to_midi.py:131 | band b starts after b bands of n / k elements plus one extra element for each earlier long band |
| BandEqualizer.BandsCover | audio_to_midi.py:130-131 | the bands start at index 0 and end together exactly at n |
| BandEqualizer.BandSizes | audio_to_midi.py:131 | the first n % k bands hold n / k + 1 elements, the others n / k |
| BandEqualizer.BandStartMonotone | audio_to_midi.py:131 | bands come in order: band starts never decrease |
| BandEqualizer.BandInside | audio_to_midi.py:131 | every band lies inside the input |
| BandEqualizer.BandOf | audio_to_midi.py:131 | every index j < n lies in exactly the band b with start(b) <= j < start(b + 1) |
| BandEqualizer.EqualizedPrefix | audio_to_midi.py:133-136 | the first b bands of the result are as long as those bands of the input |
| BandEqualizer.Equalized | audio_to_midi.py:119-137 | the equalized spectrum has the input's length |
| BandEqualizer.EqualizedPrefixKeeps | audio_to_midi.py:134-136 | adding a band leaves the earlier elements of the result as they were |
| BandEqualizer.EqualizedPrefixLast | audio_to_midi.py:135 | inside the band just added, element j is input j times that band's level |
| BandEqualizer.EqualizedPrefixAt | audio_to_midi.py:134-136 | inside any of the first b bands, element j is input j times the level of j's band |
| BandEqualizer.EqualizedAt | audio_to_midi.py:130-137 | element j of the equalized spectrum is input j times `levels[b]` for the band b holding j |
| BandEqualizer.EqualizedIdentity | audio_to_midi.py:130-137 | with every level 1 the equalizer returns its input |
| BandEqualizer.ScaledSlice | audio_to_midi.py:135 | a scaled slice written after a prefix extends that prefix by the scaled band |
| BandEqualizer.FillBand | audio_to_midi.py:135 | `result[i : i + len(band)] = band * level` writes the scaled band, and the elements before and after it are unchanged |
| BandEqualizer.Equalizer | audio_to_midi.py:119-137 | the array filled band by band with a running index has the input's length and equals `Equalized` |
| Levels.RescaleAffine | audio_to_midi.py:152 | the rescale sends min to a, max to b, and is linear in between |
| Levels.RescaleWithin | audio_to_midi.py:152 | a value inside [min, max] lands between b and a when b <= a |
| Levels.RescaleAntitone | audio_to_midi.py:168 | with b <= a a larger count never gets a larger level |
| Levels.Norm | audio_to_midi.py:140-152 | `norm(a, b, x)`: same length; every minimum goes to a and every maximum to b; requires max > min because the code has no guard |
| Levels.NormWithin | audio_to_midi.py:152 | with b <= a every result lies in [b, a] |
| Levels.Normalize | audio_to_midi.py:38-48 | `normalize(v)`: same length, signs kept, nothing above 1, and the maxima become exactly 1 once the maximum reaches 1e-10 |
| Levels.HistogramNotFlat | audio_to_midi.py:166-168 | 31 counts of 100 pitches are never all equal, so `norm` never divides by zero here |
| Levels.AdjustmentLevels | audio_to_midi.py:155-169 | levels in [0.1, 1]; the emptiest bands get 1 and the fullest get 0.1; a fuller band never gets a higher level |
| Peak.FirstMaxIndex | audio_to_midi.py:208 | `argwhere(fft == max(fft))[0]`: a maximal index with every earlier element strictly smaller |
| Peak.BinFrequency | audio_to_midi.py:196 | `fftfreq(2W, 1/48000)` on the first W bins: from 0 up to, but not reaching, the Nyquist frequency |
| Peak.BinFrequencyIncreasing | audio_to_midi.py:196 | higher bins have strictly higher frequencies |
| Peak.PeakFrequency | audio_to_midi.py:214 | the frequency of the lowest bin holding the maximum magnitude |
| AudioToMidi.Initial | audio_to_midi.py:184-191 | level 50, multiplier 2000, no note, level history [50], pitch history 1, 101, ..., 9901; the loop invariant holds |
| AudioToMidi.ClampNote | audio_to_midi.py:230 | `min(max(n, 0), 127)`: in range values kept, others clamped to the nearer bound |
| AudioToMidi.ClampLevel | audio_to_midi.py:237 | `min(max(level, 0), 127)` on reals |
| AudioToMidi.Truncate | audio_to_midi.py:238 | Python's `int(x)` rounds toward zero |
| AudioToMidi.TruncateLevel | audio_to_midi.py:237-238 | the velocity of a clamped level is a MIDI velocity 0..127 |
| AudioToMidi.Remember | audio_to_midi.py:235-247 | append then `pop(0)` past the cap: the newest entries in order, ending with the new one, never more than the cap |
| AudioToMidi.RawLevelFollowsLoudness | audio_to_midi.py:222-234 | with a positive multiplier the level rises exactly when the block is louder than the previous one, and stays put exactly when it is as loud |
| AudioToMidi.AdjustMultiplier | audio_to_midi.py:217-220 | ×1.01 when every level is strictly inside (0, 127), ×0.99 when some level is beyond 0 or 127, unchanged otherwise |
| AudioToMidi.EqualizerLevels | audio_to_midi.py:202 | 31 equalizer levels, each in [0.1, 1] |
| AudioToMidi.Sound | audio_to_midi.py:233-247 | a sounding block: level clamped from `level + vel`; pre-clamp level and frequency remembered; previous note off, then note-on at `int(level)` in 0..127 |
| AudioToMidi.SoundIgnoresGainAndNote | audio_to_midi.py:233-247 | the state after sounding does not depend on the note or gain it started from |
| AudioToMidi.Active | audio_to_midi.py:217-238 | every active block adapts the gain and resolves a note; note 0 sends only the note-off and changes nothing else; any other note sounds |
| AudioToMidi.ActiveMessages | audio_to_midi.py:226-238 | the note-off for the previous note comes first; at most one note-on, last, in MIDI range, for the new note at the new level |
| AudioToMidi.Pass | audio_to_midi.py:200 | a block at or below 0.0005 sends nothing and changes nothing; louder blocks are answered by `Active` |
| AudioToMidi.Next | audio_to_midi.py:195-247 | one loop pass on a block: silent blocks change nothing; others act on the strongest equalized frequency; invariant kept; at most 2 messages |
| AudioToMidi.Run | audio_to_midi.py:195-247 | the loop over many blocks keeps the invariant and sends at most two messages per block |
| AudioToMidi.RunSilent | audio_to_midi.py:200 | a run of quiet blocks sends nothing and changes nothing |
| AudioToMidi.ExclusiveAppend | audio_to_midi.py:226-238 | a message stream is note-exclusive exactly when both halves are, the second from where the first leaves the receiver |
| AudioToMidi.NoteOffSilences | audio_to_midi.py:226-227 | the note-off for the controller's note silences the receiver |
| AudioToMidi.NoteOnSounds | audio_to_midi.py:238 | a note-on in silence leaves its note sounding |
| AudioToMidi.ActiveExclusive | audio_to_midi.py:226-238 | an active block never starts a note while another sounds, and afterwards the sounding note is the controller's note |
| AudioToMidi.PassExclusive | audio_to_midi.py:200-238 | the same for any block, quiet or loud |
| AudioToMidi.RunExclusive | audio_to_midi.py:195-247 | over any run of blocks every note-on is sent while nothing sounds |
| AudioToMidi.InitialRunExclusive | audio_to_midi.py:184-247 | from start-up, whatever the blocks and detected notes, at most one note sounds at a time |
| AudioToMidi.Controller.constructor | audio_to_midi.py:184-191 | the fields start as `Initial` |
| AudioToMidi.Controller.Detect | audio_to_midi.py:202-214 | levels from the histogram, the spectrum equalized into a fresh array, the strongest bin's frequency, as `DetectedFrequency` |
| AudioToMidi.Controller.AdaptGain | audio_to_midi.py:217-220 | only the multiplier changes, by the gain rule |
| AudioToMidi.Controller.Play | audio_to_midi.py:233-247 | the fields become the state `Sound` gives, and the returned note-on is for the note at `int(level)` |
| AudioToMidi.Controller.Respond | audio_to_midi.py:217-238 | the fields and the messages sent are what `Active` gives |
| AudioToMidi.Controller.Step | audio_to_midi.py:195-247 | the fields after the pass and the messages sent are what `Next` gives; the invariant is kept |
| Hex.HexDigit | code.py:138 | the digit `hexlify` writes for a nibble is a lower-case hex digit |
| Hex.DigitRoundTrip | code.py:138 | reading back a written digit gives its nibble |
| Hex.ByteHex | code.py:138 | two hex digits per byte, and `int(..., 16)` reads the byte back |
| Hex.Hexlify | code.py:138 | `hexlify(...).decode()`: two hex digits per byte |
| Hex.HexlifyRoundTrip | code.py:138 | digits 2i and 2i + 1 are those of byte i, and read back to byte i |
| Hex.HexSlice | code.py:145-153 | any slice of hex text is hex text |
| Hex.DigitValue | code.py:145-147 | a hex digit of either case is worth less than 16, less than 10 exactly when it is a decimal digit, and a lower-case digit is the one written for its value |
| Hex.ParseByte | code.py:145-147 | `int(s, 16)` on two digits: the first digit is the high nibble, the second the low one |
| Hex.ParseByteDigits | code.py:138-147 | two lower-case digits are exactly the digits `hexlify` writes for the byte they parse to |
| ActiveSensing.CountFe | code.py:122 | `count("fe")` counts non-overlapping occurrences, at most half the length |
| ActiveSensing.CountFePairs | code.py:122 | `count("fe") * 2 == len` holds exactly when the text is "fe" repeated |
| ActiveSensing.CountFeTrailing | code.py:122 | one more "fe" at the end is one more occurrence |
| ActiveSensing.StripOneFe | code.py:117-122 | dropping the leading "fe", or the trailing one, removes exactly one occurrence of "fe" |
| ActiveSensing.Defe | code.py:111-124 | a read longer than 6 loses one leading "fe", or else one trailing "fe"; the rest becomes empty exactly when it is all "fe" pairs; the result is a slice of the input and never longer |
| ActiveSensing.DefeEven | code.py:111-124 | whole bytes stay whole bytes |
| ActiveSensing.DefeAllSensing | code.py:111-124 | a read of nothing but active-sensing bytes leaves nothing |
| ActiveSensing.Repeat | code.py:122 | "fe" n times has length 2n |
| ActiveSensing.RepeatFePairs | code.py:122 | "fe" repeated is made of "fe" pairs |
| NoteTable.Empty | code.py:291 | `{}` is a well-formed, empty dictionary |
| NoteTable.ValuesExactly | code.py:239 | `list(notes.values())` holds the value of every key and nothing else |
| NoteTable.Put | code.py:152 | `notes[pitch] = v`: an existing key keeps its place and takes v; a new key goes last; no other key changes |
| NoteTable.IndexOf | code.py:331 | the position of a present key |
| NoteTable.CutOut | code.py:331 | cutting one key out of a repeat-free order leaves exactly the other keys, still without repeats |
| NoteTable.Delete | code.py:331 | `del notes[pitch]`: the key leaves the order, the others keep their relative order, and its value is dropped |
| NoteTable.DeleteAt | code.py:331 | deleting the key at position j cuts position j out of the order |
| MidiInput.Velocity | code.py:148 | `int(data[-2:], 16) / 127` lies in [0, 255/127] |
| MidiInput.Colour | code.py:150 | each of the 88 keys from A0 (pitch 21 to 109) takes a gradient colour from [0, 1] |
| MidiInput.NoteEntry | code.py:152 | the stored entry keeps the time and velocity; at velocity 1 the colour is stored as it is; a non-negative colour at non-negative velocity stays non-negative |
| MidiInput.FrontDigits | code.py:145-147 | on hexlified text the status and pitch bytes are the two whose digits are the first four |
| MidiInput.Record | code.py:145-152 | a non-note-on chunk leaves the table alone; a note-on sets its pitch to the pitch colour scaled by the velocity, every other key keeps its entry, and the old keys keep their order |
| MidiInput.ParseChunks | code.py:143-153 | the chunk loop keeps the table well-formed |
| MidiInput.Messages | code.py:143-153 | the loop makes floor(len / 6) passes |
| MidiInput.MessagesAt | code.py:145-147 | pass i reads its status from digits 6i, 6i + 1 and its pitch from the two after |
| MidiInput.TrailingFragmentIgnored | code.py:143 | a trailing fragment of at most five digits yields nothing |
| MidiInput.Apply | code.py:143-153 | the loop over a list of messages keeps the table well-formed |
| MidiInput.VelocityStays | code.py:148 | every pass of one read uses the same velocity digits, the last two of the whole text |
| MidiInput.ParseChunksMessages | code.py:143-153 | the loop on the text is the loop on its messages, all read with the velocity of the whole text |
| MidiInput.NoteOns | code.py:146-147 | a pitch is listed exactly when some note-on message names it |
| MidiInput.LastNoteOn | code.py:152 | the last message naming a pitch: no later message names it |
| MidiInput.ApplyKeys | code.py:152 | no key is removed, old keys keep their order, and a key is present exactly when it was before or a note-on names it |
| MidiInput.ApplyKeeps | code.py:152 | a key no note-on names keeps its entry |
| MidiInput.ApplyWrites | code.py:147-152 | a note-on pitch holds its colour times the velocity, stamped by the last pass that named it |
| MidiInput.WrittenLater | code.py:152 | the same when a later message names the pitch again |
| MidiInput.WrittenFirst | code.py:152 | the same when the first message is the last to name the pitch |
| MidiInput.ReadVelocity | code.py:138-148 | the velocity is the read's last byte, or the one before it when a trailing "fe" was stripped |
| MidiInput.TailVelocity | code.py:148 | the last two digits of the stripped text are those of that byte |
| Selection.FadeOut | code.py:249 | `max(FADE - (current - ago), 0) / FADE`: never negative, 0 once FADE old, 1 minus age/FADE before, at most 1 for past notes |
| Selection.FadeOutMonotone | code.py:266 | an older note is never brighter |
| Selection.Shade | code.py:252-254 | a non-negative colour scaled by a non-negative factor stays non-negative |
| Selection.HighestKey | code.py:264 | `sorted(keys)[-1]`: a key no key exceeds |
| Selection.LowestKey | code.py:264 | `sorted(keys)[0]`: a key that exceeds no key |
| Selection.HighLowKey | code.py:263-265 | the largest key in mode "highest", the smallest in any other mode |
| Selection.HighLow | code.py:258-270 | the colour of that key, faded by its age |
| Selection.LastMaxIndex | code.py:238-248 | where a stable ascending sort leaves its last element: a maximum with every later position strictly smaller |
| Selection.ChosenUnique | code.py:238-248 | only one position is chosen, so equal scores still determine the note |
| Selection.NewOldHighIndex | code.py:237-248 | the position `color[-1]` takes after the sort |
| Selection.ChosenMeaning | code.py:237-248 | the chosen note is the loudest in "highvel", the oldest in "oldest", the latest otherwise |
| Selection.Boost | code.py:250 | `1 + len(notes) / 176` is at least 1 |
| Selection.Brightness | code.py:249-251 | never negative, and nothing once the note is FADE old |
| Selection.NewOldHigh | code.py:227-255 | the chosen note's colour, scaled by its fade-out times the boost |
| Visualizer.Advance | code.py:314-316 | the next mode stays in [0, 7) and is mode + 1 modulo 7 |
| Visualizer.Presses | code.py:313-316 | any number of presses leaves the mode in [0, 7) |
| Visualizer.PressesCycle | code.py:313-316 | n presses move the mode n steps modulo 7 |
| Visualizer.FullCycle | code.py:313-316 | seven presses return to the starting mode |
| Visualizer.FreshKeys | code.py:329-331 | the kept keys are never more than the keys |
| Visualizer.FreshKeysMembers | code.py:329-331 | a key is kept exactly when it is listed, present and at most FADE old |
| Visualizer.FreshKeysDistinct | code.py:329-331 | the kept keys have no repeats |
| Visualizer.Pruned | code.py:329-331 | after pruning at `now`: every entry left is at most FADE old and unchanged, and every entry at most FADE old is kept |
| Visualizer.StaleIsDark | code.py:330 | a note pruned as more than FADE old already has fade-out 0 and would be drawn with no brightness |
| Visualizer.AllFreshKept | code.py:329-331 | keys that are all fresh are all kept |
| Visualizer.PrunedIdempotent | code.py:329-331 | pruning twice at the same time prunes nothing more |
| Visualizer.DefeHex | code.py:138-140 | the text `defe` leaves of a hexlified read is hex text |
| Visualizer.ChunkStep | code.py:143-153 | the loop is one pass over the front chunk followed by the loop over the rest |
| Visualizer.PruneVisits | code.py:329-330 | the key visited next is still present with its original value |
| Visualizer.DropStale | code.py:330-331 | deleting a stale key keeps the loop's invariant one key further on |
| Visualizer.KeepFresh | code.py:330 | keeping a fresh key keeps the loop's invariant one key further on |
| Visualizer.FreshKeysStep | code.py:329-331 | visiting one more key adds it to the kept keys exactly when it is fresh |
| Visualizer.PrunedUpToAll | code.py:329-331 | once every key is visited the table is the pruned one |
| Visualizer.ReadChunks | code.py:143-153 | the chunk loop, consuming six digits a pass and writing note-ons in place, records what `ParseChunks` records |
| Visualizer.PruneTable | code.py:329-331 | the pruning loop over a snapshot of the keys, deleting stale entries, yields `Pruned` |
| Visualizer.Visualizer.constructor | code.py:287-297 | mode 0, no notes, button not pressed |
| Visualizer.Visualizer.PollButton | code.py:313-320 | a fresh press advances the mode cyclically, holding or releasing does not; the reading is remembered; notes unchanged |
| Visualizer.Visualizer.ParseMidi | code.py:138-155 | `notes = parse_midi(notes)`: the table becomes the chunk loop over the de-"fe"d hex text of the read |
| Visualizer.Visualizer.Prune | code.py:329-331 | the table becomes `Pruned(notes, now)`; mode and button state unchanged |

## Left out

- Audio capture, MIDI port discovery and sending, and the terminal display (`pretty_data`) are I/O. Blocks arrive as their RMS and spectrum, and sent messages are returned as a sequence.
- `np.fft.fft`, `np.fft.fftfreq`'s floating-point evaluation, the `sqrt` in `rms` and the `log` in `freq_to_note` are floating-point library numerics. The model works over exact reals, and takes `noteOf` for the rounded note number.
- `np.histogram` binning is a parameter. It is required to return 31 counts that count every value.
- The stray Markdown fence at audio_to_midi.py:172 makes that file unparsable as given. The model follows the loop body as written.
- The unused peak before equalization (audio_to_midi.py:208) is computed in `AudioToMidi.Controller.Detect` and discarded, as the source does.
- `AudioToMidi.Active` and the controller do not model a final note-off at shutdown: the source's loop never ends.
- `code.py` hardware: PWM pins, buttons, `usb_midi`, `time.sleep`, `write_rgb` blending and the gradient's `sin`. `gradient` is a parameter returning a colour.
- `average` and `median` (floating-point averaging, and `median`'s `json.dumps`-keyed reverse dictionary), `panic`, `reset_tune` and `mode_comfirm` are not modelled.
- The dispatch `mode_funcs[mode](notes, current, mode)` (code.py:279-284, 334-339) is not modelled. It indexes a four-entry list with a mode that runs to 6, so modes 4 to 6 fail, and modes 1 and 2 call `average` and `median`, which do not match the names "oldest" and "highest". Mode 3 calls `high_low`, which picks the lowest key, as its name "lowest" asks.
- The recursive `main()` call on panic (code.py:310) and the misspelt call `mode_confirm` (code.py:76, 317) are not modelled. Either would end or break the loop.
- `Visualizer.Visualizer.PollButton` reads the button once per pass; the source reads `button.value` up to three times (code.py:313, 320).
- `Visualizer.Visualizer.Prune` uses one time `now` for every entry, where the source reads `time.monotonic()` afresh for each entry.
- `Visualizer.Visualizer.ParseMidi` stamps note-ons with `clock(k)` for the pass number k of the read, in place of a fresh `time.monotonic()`. It models `VEL = True` only; the velocity 1 of `VEL = False` is not modelled.
- `Visualizer.Visualizer.ParseMidi` and `Visualizer.Visualizer.Prune` run their loops on a local copy of the table and assign it back. The source mutates the shared dictionary in place; since the table is a value here, there is no aliasing to model.
- `MODES` is a datatype of the seven mode names rather than strings.
