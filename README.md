# Sleep-sound mixer: playback state and WAV header, in Dafny

This project models the two computational cores of a single-page ambient-sound
mixer (`src/App.tsx`). The page lets a user play catalogued sounds, set per-track
volumes, apply presets, mark favourites and start a sleep timer. It also builds a
placeholder audio file for each track.

- **Playback session** (`tracks.dfy`, `catalog.dfy`, `player.dfy`). A track record
  holds `id`, `category`, `isPlaying` and `volume`. The session fields are
  `favorites`, `mixMode`, `activePreset`, `sleepTimer`, `timerActive` and the active
  tab. Module `Tracks` gives every transition of the track list as a pure function:
  togglePlay, updateVolume, applyPreset, stop-all, the category filter and the
  favourites toggle. Lemmas state what each transition does and what it preserves.
  Module `Catalog` holds the ten start-up tracks, the four presets and the per-track
  tone frequency. Class `Player.App` has the component's state as fields, and each
  user action is a method. The actions that change the track list or the favourites
  assign them from the `Tracks` functions and keep the object invariant `Valid()`:
  unique track ids and a duplicate-free favourites list. The mix-mode button, the
  timer slider, the tabs and the timer start assign plain values.
- **WAV serialiser** (`wav.dfy`). This is the WAVE form of the RIFF format from the
  Multimedia Programming Interface and Data Specifications 1.0: a "fmt " chunk with
  WAVE_FORMAT_PCM = 1, mono, 16 bits per sample, all fields little-endian. The pure
  function `WavFile` is the specification of the byte layout. The little-endian
  16/32-bit codecs carry round-trip lemmas in both directions. `AudioBufferToWav`
  fills a zero-initialised `array` through DataView-style setters and a per-character
  string writer, then runs the sample loop that advances `offset` by 2. It is proved
  to produce exactly `WavFile`.

Where the code does something other than what its own comments and captions
suggest, the model follows the code:
- `updateVolume` does not clamp. The 0..100 range comes only from the slider's
  `max={100}` (App.tsx:604-609). The model stores any integer it is given.
- togglePlay's comments (App.tsx:279 and 297-298) say other tracks are stopped only
  when mix mode is off, and the mix-mode card's caption (App.tsx:499-500) presents
  mix mode as the way to play several tracks. This suggests that without mix mode
  at most one track plays. The code keeps that only through togglePlay, stop-all,
  presets and the timer. The mix-mode button (App.tsx:514) turns mix mode off without stopping
  anything. `Catalog.PresetThenMixOffBreaksExclusive` and
  `Player.MixModeOffScenario` show a preset followed by that button leaving three
  tracks playing with mix mode off. The class methods therefore promise only
  `old(Exclusive()) ==> Exclusive()`, and `ToggleMixMode` promises nothing about it.
- The sleep-timer handler itself checks only `sleepTimer > 0`. The "no restart
  while active" rule lives only in the button's `disabled` attribute (App.tsx:484).
  Each start therefore schedules one more callback, counted in `pendingTimers`, and
  there is no cancellation.

## Model

| member | source | states |
|---|---|---|
| `Tracks.PlayingCount` | src/App.tsx:661 | the number of playing tracks in the summary badge; it is 0 exactly when no track plays |
| `Tracks.AtMostOnePlayingCount` | src/App.tsx:653-661 | no two tracks play at once iff the summary count is at most 1 |
| `Tracks.FindTrack` | src/App.tsx:262-263 | `find` returns nothing iff no track has the id; otherwise it returns the first track with that id |
| `Tracks.Paused` | src/App.tsx:271-275 | pausing changes only play flags, and afterwards a track plays iff it played before and does not have the id |
| `Tracks.Started` | src/App.tsx:289-302 | starting changes only play flags; the named track plays; any other track plays iff mix mode is on and it played before |
| `Tracks.TogglePlay` | src/App.tsx:261-303 | togglePlay changes only play flags; its cases are stated by TogglePlayUnknownId, TogglePlayStopsPlaying, TogglePlayExclusive, TogglePlayMix and TogglePlayKeepsExclusive |
| `Tracks.TogglePlayUnknownId` | src/App.tsx:261-263 | togglePlay on an id that is not in the list leaves the list unchanged |
| `Tracks.TogglePlayOnlyFlags` | src/App.tsx:261-302 | togglePlay changes no id, category or volume; stopping everything afterwards gives the same list as stopping everything before |
| `Tracks.TogglePlayStopsPlaying` | src/App.tsx:266-277 | on a playing track, exactly that track stops and every other flag is kept |
| `Tracks.TogglePlayExclusive` | src/App.tsx:279-302 | with mix mode off, starting a stopped track leaves exactly that track playing (count 1) |
| `Tracks.TogglePlayMix` | src/App.tsx:289-301 | with mix mode on, starting a stopped track adds it to the playing set and changes no other flag |
| `Tracks.TogglePlayKeepsExclusive` | src/App.tsx:279-302 | with mix mode off, togglePlay preserves "at most one track playing" |
| `Tracks.PlayingCountSingle` | src/App.tsx:661 | a list in which only one position plays has summary count 1 |
| `Tracks.UpdateVolume` | src/App.tsx:305-316 | the volume update keeps ids, categories and play flags |
| `Tracks.UpdateVolumeSetsOnlyNamed` | src/App.tsx:306-315 | the named track's volume becomes exactly `v` (no clamping); every other track is unchanged |
| `Tracks.UpdateVolumeLastWins` | src/App.tsx:305-316 | two volume writes to one track equal the last one alone |
| `Tracks.UpdateVolumeSameValue` | src/App.tsx:305-316 | writing back a track's current volume changes nothing |
| `Tracks.UpdateVolumeCommutesWithStopAll` | src/App.tsx:305-316 | a volume write and stop-all commute, so volume and play state are independent |
| `Tracks.PresetVolume` | src/App.tsx:358 | the new volume is either the track's own or its table entry; a 0 entry never silences a track (the result is 0 only if the track's own volume was 0); a table entry is passed over only when it is 0 |
| `Tracks.ApplyPreset` | src/App.tsx:356-372 | keeps every id and category, and a track plays iff its id is in the preset; volumes are stated by ApplyPresetEffect |
| `Tracks.ApplyPresetEffect` | src/App.tsx:356-372 | after a preset a track plays iff its id is in the preset; volumes follow the table with the fallback; non-preset tracks keep their volume |
| `Tracks.ApplyPresetIdempotent` | src/App.tsx:343-373 | applying a preset twice equals applying it once |
| `Tracks.ApplyPresetForgetsPlaying` | src/App.tsx:356-372 | the result of a preset does not depend on which tracks were playing before |
| `Tracks.StopAll` | src/App.tsx:382 | no track plays afterwards, and ids, categories and volumes are kept |
| `Tracks.StopAllEffect` | src/App.tsx:382 | stop-all leaves no track playing (count 0) and keeps ids, categories and volumes |
| `Tracks.StopAllIdempotent` | src/App.tsx:382 | stopping everything twice equals stopping once |
| `Tracks.StopAllWhenSilent` | src/App.tsx:382 | with nothing playing, stop-all changes nothing |
| `Tracks.FilterCategory` | src/App.tsx:386 | a track is shown under a tab iff it is in the list and has that category |
| `Tracks.FilterPartitions` | src/App.tsx:386 | the three tabs together show every track exactly once (multiset equality) |
| `Tracks.FilterIdempotent` | src/App.tsx:386 | filtering the shown list again by the same tab changes nothing |
| `Tracks.FilterStep` | src/App.tsx:386 | one step of the filter: the head track is shown iff its category matches |
| `Tracks.Without` | src/App.tsx:321 | removing an id drops every occurrence of it and keeps every other id |
| `Tracks.ToggleFavorite` | src/App.tsx:318-324 | the id is a favourite afterwards iff it was not before; the other ids and the round trips are stated by ToggleFavoriteFlips, ToggleFavoriteTwiceAbsent and ToggleFavoriteTwicePresent |
| `Tracks.ToggleFavoriteFlips` | src/App.tsx:318-324 | toggling flips the id's membership and keeps every other id's membership |
| `Tracks.WithoutAbsent` | src/App.tsx:321 | removing an absent id returns the list unchanged |
| `Tracks.WithoutAppended` | src/App.tsx:319-323 | removing an id that was just appended to a list without it restores that list |
| `Tracks.ToggleFavoriteTwiceAbsent` | src/App.tsx:318-324 | toggling an absent id twice restores the exact original list |
| `Tracks.ToggleFavoriteTwicePresent` | src/App.tsx:318-324 | toggling a present id twice restores the set of favourites, with the id moved to the end |
| `Tracks.WithoutKeepsNoDuplicates` | src/App.tsx:321 | removing an id from a duplicate-free list leaves it duplicate-free |
| `Tracks.ToggleFavoriteKeepsNoDuplicates` | src/App.tsx:318-324 | a duplicate-free favourites list stays duplicate-free |
| `Catalog.InitialTracks` | src/App.tsx:64-168 | ten tracks with distinct ids in catalog order, none playing, volumes in 0..100 |
| `Catalog.Presets` | src/App.tsx:29-58 | four presets; each names only catalogued tracks, each with a table volume in 1..100 |
| `Catalog.Frequency` | src/App.tsx:234-248 | a tone between 6 and 800 Hz; 440 for an id outside the catalog |
| `Catalog.ForestRainFromStart` | src/App.tsx:30-36 | "forest_rain" on the start-up list plays exactly rain, forest and birds at 70, 50 and 30 and keeps every other track as it was |
| `Catalog.PresetsSetTableVolumes` | src/App.tsx:356-372 | every preset of the grid starts each of its tracks at exactly its table volume |
| `Catalog.PresetThenMixOffBreaksExclusive` | src/App.tsx:514 | after "forest_rain" more than one track plays, so turning mix mode off does not restore exclusivity |
| `Player.App.constructor` | src/App.tsx:21-26 | start-up state: the catalog tracks, no favourites, mix mode off, no preset, timer 0 and inactive, nature tab |
| `Player.App.FilteredTracks` | src/App.tsx:386 | the shown tracks are those of the session with the active tab's category |
| `Player.App.TogglePlay` | src/App.tsx:261-303 | new tracks are `TogglePlay(old tracks)`; only play flags change; stopping a playing track clears only its flag; starting with mix mode off leaves exactly it playing; with mix mode on it is added; exclusivity is preserved |
| `Player.App.UpdateVolume` | src/App.tsx:305-316 | the named track's volume becomes exactly the given value and nothing else changes |
| `Player.App.ToggleFavorite` | src/App.tsx:318-324 | the favourites list is toggled, membership flips and no duplicate appears |
| `Player.App.ApplyPreset` | src/App.tsx:343-373 | tracks follow `ApplyPreset`; exactly the preset's tracks play; mix mode is on; the active preset is the preset's id |
| `Player.App.StopAllTracks` | src/App.tsx:375-384 | no track plays; volumes are kept; the active preset is cleared |
| `Player.App.ToggleMixMode` | src/App.tsx:514 | the button flips mix mode and changes nothing else; in particular turning it off stops no track |
| `Player.App.SetSleepTimer` | src/App.tsx:472 | the timer length takes the slider value |
| `Player.App.SelectTab` | src/App.tsx:538 | the active tab takes the chosen category |
| `Player.App.StartSleepTimer` | src/App.tsx:326-328 | only a positive length activates the timer and schedules one callback; otherwise nothing changes |
| `Player.App.SleepTimerFires` | src/App.tsx:329-339 | the callback clears every play flag, keeps volumes, deactivates the timer and leaves the active preset as it was |
| `Wav.U16` | src/App.tsx:193-198 | a 16-bit field is two bytes; U16RoundTrip and DecodeU16RoundTrip state it is the little-endian encoding |
| `Wav.U32` | src/App.tsx:189-200 | a 32-bit field is four bytes; U32RoundTrip and DecodeU32RoundTrip state it is the little-endian encoding |
| `Wav.I16` | src/App.tsx:206 | a sample is two bytes; I16RoundTrip states that a signed 16-bit sample reads back as itself |
| `Wav.Header` | src/App.tsx:188-200 | the header is 44 bytes; HeaderFields states each field at its offset |
| `Wav.SampleData` | src/App.tsx:203-208 | two bytes per sample; SampleDataAt states where each sample sits |
| `Wav.WavFile` | src/App.tsx:175-211 | the file is 44 + 2n bytes; WavFileConsistent states the size fields agree with the length and each sample reads back at 44 + 2i |
| `Wav.U16RoundTrip` | src/App.tsx:193-198 | decoding a little-endian 16-bit field returns the value written |
| `Wav.DecodeU16RoundTrip` | src/App.tsx:193-198 | every two bytes are the encoding of the value they decode to |
| `Wav.U32RoundTrip` | src/App.tsx:189-200 | decoding a little-endian 32-bit field returns the value written |
| `Wav.DecodeU32RoundTrip` | src/App.tsx:189-200 | every four bytes are the encoding of the value they decode to |
| `Wav.Wrap16` | src/App.tsx:193-206 | a 16-bit write keeps values in range and stores a negative 16-bit value as its two's complement |
| `Wav.Wrap32` | src/App.tsx:189-200 | a 32-bit write stores the value modulo 2^32 and keeps values in range |
| `Wav.I16RoundTrip` | src/App.tsx:206 | a signed 16-bit sample reads back as itself |
| `Wav.Ascii` | src/App.tsx:182-186 | one byte per character, equal to the character code for codes below 256 |
| `Wav.SampleDataAt` | src/App.tsx:203-208 | sample i occupies bytes 2i and 2i+1 of the sample data |
| `Wav.HeaderFields` | src/App.tsx:188-200 | "RIFF" at 0, size 36+2n at 4, "WAVE" at 8, "fmt " at 12, 16 at 16, format 1 at 20, 1 channel at 22, sample rate at 24, byte rate 2*rate at 28, block align 2 at 32, 16 bits at 34, "data" at 36, 2n at 40; sizes modulo 2^32 |
| `Wav.WavFileConsistent` | src/App.tsx:175-210 | length 44+2n; RIFF size = length - 8; data size = length - 44; byte rate = rate * block align; block align = channels * bits/8; sample i reads back at 44+2i |
| `Wav.WriteString` | src/App.tsx:182-186 | the per-character loop stores the string's bytes from the offset and leaves the rest of the buffer unchanged |
| `Wav.SetUint16` | src/App.tsx:193 | stores the value modulo 2^16, low byte first, at the offset and nothing else |
| `Wav.SetInt16` | src/App.tsx:206 | stores the sample's two's-complement pattern, low byte first, at the offset and nothing else |
| `Wav.SetUint32` | src/App.tsx:189 | stores the value modulo 2^32, least significant byte first, at the offset and nothing else |
| `Wav.WriteHeader` | src/App.tsx:188-200 | the thirteen header writes in source order leave the first 44 bytes equal to `Header(n, rate)` and every byte from offset 44 on as it was |
| `Wav.AudioBufferToWav` | src/App.tsx:175-211 | the buffer is newly allocated, has 44+2n bytes and equals `WavFile(rate, samples)`: the header, then sample i at offset 44+2i, with the loop ending at 44+2n |

## Left out

- Rendering, styling, icons and the UI component library (App.tsx:388-689): presentation only. The track fields `name`, `icon`, `url` and `duration` are presentation too and are not in `Track`.
- The media-element calls `play()`, `pause()` and `.volume`, the swallowed rejection of `play()`, and the `audioRefs` registry. These are browser calls outside the model. The model has only the intended play flags. These can disagree with what is actually audible when the browser rejects a `play()` request.
- Sine synthesis with random noise, the audio context, `Blob` and object URLs (App.tsx:214-230, 250-258): floating point, randomness and browser APIs.
- The sample values: the float clamp and `* 0x7FFF` quantisation (App.tsx:205-206) are floating point. `AudioBufferToWav` takes the already-truncated integer samples and models how each is stored and where.
- `Wav.AudioBufferToWav`: the sample rate is taken as an integer, while the host reports it as a number. Non-integral rates are not modelled.
- The real delay `sleepTimer * 60 * 1000` and the asynchronous scheduling (App.tsx:258, 329-339). The timer is an explicit start step and an explicit fire step. `pendingTimers` counts the callbacks the host still owes.
- React hook mechanics: batching of state setters and the stale `tracks` closure used by the timer callback for its pause calls. Each method applies its updates at once, in sequence.
- `Tracks.Without`: states membership, not order preservation, of `filter`.
