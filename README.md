# Morse trainer: a verified model of its lesson, playback and exercise logic

This project models the core of a desktop Morse-code trainer in Dafny:

- `morse_trainer/morse_logic.py`: the logic object. It merges the character
  tables and answers questions about the course: lessons, exercises,
  descriptions and character pools. It generates random exercise groups and
  plays text as Morse on a background thread, which the interface can stop.
- `morse_trainer/audio_player.py`: the player. It turns a words-per-minute
  speed into dot, dash and pause durations. It plays dots, dashes and
  character pauses, and shapes every tone with a linear attack and decay
  envelope.
- The exercise part of `morse_trainer/app.py`:
  - reading ids back from the `"id: name"` menu entries;
  - selecting lessons and exercises;
  - the start button;
  - recognition rounds and how an answer is scored;
  - the five-groups-per-line layout of received text.

Files and modules:

| file | module | contents |
|---|---|---|
| `optional.dfy` | `Optional` | the `Option` datatype |
| `pystr.dfy` | `PyStr` | the Python built-ins the code relies on: the `isspace` class, `strip()`, `split()`, `join()`, `int()` and `str()` |
| `audio_player.dfy` | `Audio` | durations, the `Player` class and the in-place envelope on an `array<real>` |
| `morse_logic.dfy` | `Morse` | the event trace of a played text, its duration, lessons and pools, exercise text, and the `MorseLogic` class |
| `app.dfy` | `Trainer` | menu ids, the output layout, and the `App` class holding the exercise state of the window |

How the model represents things:

- **Playback.** Playback is the ordered log `events` of what the playing
  thread issues: `Dot`, `Dash`, `CharPause`, and `Delay` for the loop's own
  0.1 s sleep. `Trace(m, text)` is the log of a text played to the end.
- **Stopping.** A stop request is the index `stopAt` of the character
  boundary where it arrives. `PlayMorse` proves that the log grows by the
  trace of exactly the characters before the stop.
- **Durations.** `Timeline` maps events to timed `Tone`/`Silence` segments
  under the player's durations. `TraceDuration` gives the length of any
  trace in seconds.
- **Randomness.** Random choices are inputs. `random.choices` is the oracle
  `draws: nat -> nat`: draw `k` picks `chars[draws(k) % |chars|]`.
  `random.choice(pool)` is a given number `pick`.
- **Errors.** A failed `int()` is `None`, and a handler that catches the
  error and returns changes no state. Two handlers raise part-way through,
  and the model keeps what they did before the exception:
  - selecting a recognition exercise stores the new pool and clears the
    round state in `_clear_workspace`, then raises `AttributeError` while
    building the keyboard (see below);
  - the group-reception branch of the start button generates its text, then
    raises `TypeError` on the playback request; `OnStartClick` returns that
    text and requests no playback.

Where the code differs from its documented intent, this model follows the code:

- **Playback requests with `on_complete=`.** The group-reception branch of
  the start button and the replay after a wrong answer both call
  `start_playback(..., on_complete=...)`. `start_playback` takes no such
  parameter, so the call raises `TypeError` before anything plays. The model
  of these branches therefore issues no events. The start button still yields
  the text it generated.
- **The recognition keyboard.** It is built from `get_keyboard_layout()`,
  which the logic object does not define, so in the code as written no button
  is ever registered. The answer handler takes `hasButton` (whether the button
  dictionary holds the clicked character) as an input, so the rest of its
  logic is still modelled.
- **Word gaps.** The player computes an inter-word pause that playback never
  uses: a space plays one character pause. `ParisWord` proves what the
  calibration word then costs. `"PARIS "` sounds for 48 dot units plus five
  0.1 s sleeps, not the 50 units the speed formula assumes.

## Model

| member | source | states |
|---|---|---|
| `PyStr.StripLeft` | morse_trainer/morse_logic.py:50 | the result is a suffix; everything cut off is whitespace; the result does not start with whitespace |
| `PyStr.StripRight` | morse_trainer/morse_logic.py:50 | the result is a prefix; everything cut off is whitespace; the result does not end with whitespace |
| `PyStr.StripTrailingSpace` | morse_trainer/morse_logic.py:49-50 | text with non-space ends loses only the one trailing space to `strip()` |
| `PyStr.Words` | morse_trainer/app.py:563 | every word that `split()` yields is non-empty and free of whitespace |
| `PyStr.WordsSplitAt` | morse_trainer/app.py:563 | no word of `split()` crosses a whitespace character |
| `PyStr.WordsOfJoin` | morse_trainer/app.py:571 | splitting lines joined by a whitespace separator gives the words of each line, in order |
| `PyStr.WordsOfJoinedWords` | morse_trainer/app.py:571 | `" ".join` of words, split again, is the same words |
| `PyStr.JoinedWordsEnds` | morse_trainer/morse_logic.py:48-50 | words joined by spaces start and end with a non-space character |
| `PyStr.IntToString` | morse_trainer/morse_logic.py:32 | `str(n)` is canonical: a minus exactly when `n < 0`, then digits with no leading zero; zero is `"0"` |
| `PyStr.IntToStringInjective` | morse_trainer/morse_logic.py:32 | different ids have different `str(id)` keys in the exercise table |
| `PyStr.ParseInt` | morse_trainer/app.py:399 | `int()` on ASCII decimal text; its meaning is stated by `ParseIntOfIntToString`, and by `NoDigitNoId` for text without digits |
| `PyStr.ParseIntOfIntToString` | morse_trainer/morse_logic.py:32 | `int(str(n)) == n` for every integer |
| `Audio.TimingFor` | morse_trainer/audio_player.py:18-25 | `50 * wpm * dot = 60` seconds (the PARIS calibration); the dash and character gap are 3 dots, the element gap is 1 dot, the word gap is 7 dots |
| `Audio.TimingAt20` | morse_trainer/audio_player.py:18-25 | at the default 20 WPM the durations are 0.06, 0.18, 0.06, 0.18 and 0.42 s |
| `Audio.TimingDecreasing` | morse_trainer/audio_player.py:18-25 | a higher speed makes each of the five durations strictly shorter |
| `Audio.CharPauseLength` | morse_trainer/audio_player.py:48-59 | a character pause is two dots of silence; with the preceding element gap, a character gap totals three dots |
| `Audio.Render` | morse_trainer/audio_player.py:48-59 | the segments each player call outputs; `CharPauseLength` and `Player.PlayDot` state their lengths |
| `Audio.AttackDecaySamples` | morse_trainer/audio_player.py:39 | the ramp length in samples; `RampAt44100` states its value at the defaults |
| `Audio.EnvelopeApplies` | morse_trainer/audio_player.py:40 | the guard of the envelope; `DotShapedUpTo120` states when it holds for a dot, `Player.ApplyEnvelope` what follows from it |
| `Audio.Trunc` | morse_trainer/audio_player.py:35-39 | `int(x)` truncates toward zero |
| `Audio.RampAt44100` | morse_trainer/audio_player.py:39 | 5 ms ramps at 44100 Hz are 220 samples long |
| `Audio.DotShapedUpTo120` | morse_trainer/audio_player.py:35-44 | at 44100 Hz a dot gets its envelope exactly when the speed is at most 120 WPM |
| `Audio.GainBounds` | morse_trainer/audio_player.py:40-44 | every envelope factor lies between 0 and 1 |
| `Audio.RampWithinUnit` | morse_trainer/audio_player.py:41-42 | both `linspace` ramps stay between 0 and 1 |
| `Audio.EnvelopeShape` | morse_trainer/audio_player.py:40-44 | with ramps of at least two samples the first and last samples are silenced; samples between the ramps are unchanged |
| `Audio.Player.constructor` | morse_trainer/audio_player.py:7-16 | speed and tone are set from the arguments; ramps are 5 ms; nothing has been output |
| `Audio.Player.SetWpm` | morse_trainer/audio_player.py:18-26 | a non-zero speed sets all five durations to `TimingFor(wpm)`; zero fails and changes nothing; the tone and output are untouched |
| `Audio.Player.SetTone` | morse_trainer/audio_player.py:28-31 | the tone becomes the argument |
| `Audio.Player.PlayDot` | morse_trainer/audio_player.py:48-51 | appends a dot tone and one element gap |
| `Audio.Player.PlayDash` | morse_trainer/audio_player.py:53-56 | appends a dash tone and one element gap |
| `Audio.Player.PlayCharPause` | morse_trainer/audio_player.py:58-59 | appends silence of the character gap minus the element gap |
| `Audio.Player.ApplyEnvelope` | morse_trainer/audio_player.py:39-46 | the envelope is applied only to waves longer than both ramps; ramps of zero samples on such a wave fail; otherwise the array ends as `Enveloped` of its old contents, or unchanged |
| `Audio.FadeIn` | morse_trainer/audio_player.py:43 | the first `ramp` samples are multiplied by the rising ramp; the rest are unchanged |
| `Audio.FadeOut` | morse_trainer/audio_player.py:44 | the last `ramp` samples are multiplied by the falling ramp; the rest are unchanged |
| `Audio.FadesCompose` | morse_trainer/audio_player.py:43-44 | fading in, then out, is the envelope |
| `Audio.ShapeInPlace` | morse_trainer/audio_player.py:43-44 | the array ends as `Enveloped` of its old contents |
| `Morse.MergeTables` | morse_trainer/morse_logic.py:14-17 | the table has the keys of all three parts; signs override digits, which override the alphabet |
| `Morse.Upper` | morse_trainer/morse_logic.py:65 | `char.upper()` on the Latin and Russian letters; `UpperIdempotent` and `CaseInsensitive` state its meaning for playback |
| `Morse.UpperIdempotent` | morse_trainer/morse_logic.py:65 | upper-casing twice is upper-casing once; only a space upper-cases to a space |
| `Morse.CodeOf` | morse_trainer/morse_logic.py:65-66 | the code is non-empty iff the character is in the table with a non-empty code |
| `Morse.SymbolEvents` | morse_trainer/morse_logic.py:67-71 | a code plays at most one tone per symbol |
| `Morse.SymbolEventsAppend` | morse_trainer/morse_logic.py:67-71 | tones come in code order: a concatenated code plays its parts' tones in turn |
| `Morse.SymbolEventsTones` | morse_trainer/morse_logic.py:67-71 | a code plays nothing but dots and dashes |
| `Morse.SymbolEventsCounts` | morse_trainer/morse_logic.py:67-71 | the number of dots played equals the number of `.`; the number of dashes equals the number of `-` |
| `Morse.SymbolEventsOfCleanCode` | morse_trainer/morse_logic.py:67-71 | a code of only `.` and `-` plays exactly one matching tone per symbol |
| `Morse.OtherSymbolsSilent` | morse_trainer/morse_logic.py:67-71 | any other symbol plays nothing, wherever it stands |
| `Morse.CharEvents` | morse_trainer/morse_logic.py:61-73 | the events of one character; `KnownCharEvents`, `SpaceEvents` and `UnknownCharEvents` state them case by case |
| `Morse.Trace` | morse_trainer/morse_logic.py:56-73 | the events of a whole text; `TraceSnoc`, `TraceAppend` and `StoppedTraceIsPrefix` state how it composes |
| `Morse.KnownCharEvents` | morse_trainer/morse_logic.py:65-73 | a known character plays its tones, then exactly one character pause and one sleep |
| `Morse.SpaceEvents` | morse_trainer/morse_logic.py:61-63 | a space plays one character pause, with no tone and no sleep |
| `Morse.UnknownCharEvents` | morse_trainer/morse_logic.py:65-73 | an unknown character, or one with a missing or empty code, only sleeps |
| `Morse.CaseInsensitive` | morse_trainer/morse_logic.py:65 | a character plays the same as its upper case |
| `Morse.TraceSnoc` | morse_trainer/morse_logic.py:56-73 | one more character appends exactly its own events |
| `Morse.TraceAppend` | morse_trainer/morse_logic.py:56-73 | playing `a + b` is playing `a`, then `b` |
| `Morse.StoppedTraceIsPrefix` | morse_trainer/morse_logic.py:56-59 | a playback stopped at a boundary issued a prefix of the full playback; the rest is the trace of the rest of the text |
| `Morse.SosTrace` | morse_trainer/morse_logic.py:56-73 | with the standard S and O codes, "SOS" and "sos" play the same, exact event sequence |
| `Morse.EventDuration` | morse_trainer/audio_player.py:48-59 | with proportional durations a dot lasts 2 dot units, a dash 4, a character pause 2, and the loop's sleep 0.1 s |
| `Morse.TraceDuration` | morse_trainer/morse_logic.py:56-73 | a trace lasts its dot units times the dot duration, plus 0.1 s per sleep |
| `Morse.UnitsCount` | morse_trainer/audio_player.py:48-59 | dot units are 2 per dot, 4 per dash and 2 per character pause; sleeps are the `Delay` events |
| `Morse.KnownCharUnits` | morse_trainer/morse_logic.py:65-73 | a known character costs 2 units per `.`, 4 per `-`, 2 for its pause, and one sleep |
| `Morse.LetterUnits` | morse_trainer/morse_logic.py:65-73 | a capital letter with `dots` dots and `dashes` dashes costs `2*dots + 4*dashes + 2` units and one sleep |
| `Morse.ParisWord` | morse_trainer/audio_player.py:20-25 | "PARIS " plays 48 dot units and 5 sleeps, lasting `48 * dot + 0.5` seconds, not the 50 units of the calibration |
| `Morse.FindLesson` | morse_trainer/morse_logic.py:28-29 | the index of the first lesson with the id, or `None` when no lesson has it |
| `Morse.Dedup` | morse_trainer/morse_logic.py:109 | same members as the input, no element twice |
| `Morse.DedupOrder` | morse_trainer/morse_logic.py:109 | elements keep the order of their first occurrence |
| `Morse.CumulativeMembers` | morse_trainer/morse_logic.py:104-108 | a character is collected iff some lesson with an id at most the given one introduces it |
| `Morse.CumulativePool` | morse_trainer/morse_logic.py:103-109 | a cumulative pool holds each character of the lessons up to the id exactly once, in order of first appearance |
| `Morse.Choices` | morse_trainer/morse_logic.py:48 | a group has `k` characters (none for `k <= 0`), all from the pool |
| `Morse.ExerciseGroups` | morse_trainer/morse_logic.py:47-49 | there are `num_groups` groups (none when it is not positive) |
| `Morse.TerminatedIsJoin` | morse_trainer/morse_logic.py:46-49 | the accumulated text is the groups joined by spaces, plus one trailing space |
| `Morse.ExerciseTextShape` | morse_trainer/morse_logic.py:44-50 | with a whitespace-free pool the stripped text is the groups joined by single spaces, and `split()` gives the groups back |
| `Morse.MorseLogic.constructor` | morse_trainer/morse_logic.py:7-20 | the course and descriptions are kept; the table is the merge of alphabet, digits and signs; nothing is playing |
| `Morse.MorseLogic.LessonsInfo` | morse_trainer/morse_logic.py:22-24 | one `(id, name)` per lesson, in course order |
| `Morse.Description` | morse_trainer/morse_logic.py:32 | the description stored under `str(id)`, or the default; `MorseLogic.ExercisesForLesson` states it per exercise |
| `Morse.MorseLogic.ExercisesForLesson` | morse_trainer/morse_logic.py:26-33 | the first matching lesson's exercise ids, each paired with its description or the default; nothing for an unknown lesson |
| `Morse.MorseLogic.ExerciseDetails` | morse_trainer/morse_logic.py:35-42 | the description under `str(exercise_id)` iff it exists and is non-empty; the lesson id plays no part |
| `Morse.MorseLogic.GetCharacterPool` | morse_trainer/morse_logic.py:92-111 | the pool is `CharacterPool`: the first matching lesson's new characters, or the de-duplicated cumulative characters, or nothing |
| `Morse.MorseLogic.GenerateExerciseText` | morse_trainer/morse_logic.py:44-50 | fails exactly when it must draw from an empty pool; otherwise the stripped, space-terminated groups; for a whitespace-free pool, `num_groups` words of `group_size` pool characters joined by single spaces |
| `Morse.MorseLogic.PlayMorse` | morse_trainer/morse_logic.py:52-76 | the log grows by the trace of the characters before the stop; the flag ends lowered; table, course and descriptions are unchanged |
| `Morse.MorseLogic.PlayNext` | morse_trainer/morse_logic.py:56-73 | one more loop iteration takes the log from the trace of the text played so far to the trace of that text plus the next character |
| `Morse.MorseLogic.PlayChar` | morse_trainer/morse_logic.py:61-73 | one loop iteration appends that character's events |
| `Morse.MorseLogic.PlayCode` | morse_trainer/morse_logic.py:67-71 | the inner loop appends the code's tones |
| `Morse.MorseLogic.StartPlayback` | morse_trainer/morse_logic.py:78-86 | a request while playing does nothing; otherwise the text plays up to the stop |
| `Morse.MorseLogic.StopPlayback` | morse_trainer/morse_logic.py:88-90 | the flag is lowered; nothing else changes |
| `Trainer.BeforeColon` | morse_trainer/app.py:399 | `split(':')[0]` is a colon-free prefix, followed by a colon unless it is the whole string |
| `Trainer.ParseId` | morse_trainer/app.py:399 | `int(entry.split(':')[0])`; `ParseIdOfMenuEntry` and `PlaceholderEntries` state what it reads |
| `Trainer.MenuEntry` | morse_trainer/app.py:375 | `f"{id}: {name}"`; `ParseIdOfMenuEntry` states that its id reads back |
| `Trainer.NoDigitNoId` | morse_trainer/app.py:398-400 | an entry without a digit has no id |
| `Trainer.PlaceholderEntries` | morse_trainer/app.py:370-371 | the placeholder entries of an empty course, `"Нет уроков"` and `"-"`, have no id |
| `Trainer.ParseIdOfMenuEntry` | morse_trainer/app.py:419-427 | parsing `f"{id}: {name}"` gives back `id`, whatever the name holds |
| `Trainer.Chunks` | morse_trainer/app.py:567 | the chunk count is the word count divided by 5, rounded up |
| `Trainer.ChunkShape` | morse_trainer/app.py:567 | each chunk holds 1 to 5 words, all but the last exactly 5; read in order, the chunks are the words |
| `Trainer.Lines` | morse_trainer/app.py:567-571 | one line per chunk; `FlatLines` states that the lines hold the words in order |
| `Trainer.FlatLines` | morse_trainer/app.py:567-571 | the lines of the layout hold the words in order |
| `Trainer.FormatOutputWords` | morse_trainer/app.py:563-571 | splitting the laid-out text gives back the words of the received text |
| `Trainer.FormatOutput` | morse_trainer/app.py:563-571 | the received text, five groups per line; `FormatOutputWords` states that its words are the received words |
| `Trainer.App.constructor` | morse_trainer/app.py:21-23 | empty pool, no character asked, no rounds |
| `Trainer.App.OnExerciseSelected` | morse_trainer/app.py:429-466 | with readable ids and a typed description, the pool becomes that type's pool and the round state is reset; otherwise nothing changes |
| `Trainer.App.OnLessonSelected` | morse_trainer/app.py:387-427 | an unreadable id or a lesson without exercises changes nothing; otherwise it acts as selecting the lesson's first exercise |
| `Trainer.App.StartSettings` | morse_trainer/app.py:498-523 | the exercise type and group settings read from the menus, or `None` where that raises; `App.OnStartClick` states each outcome |
| `Trainer.App.StartRound` | morse_trainer/app.py:719-745 | with rounds left and a non-empty pool, `pool[pick mod len(pool)]` is asked and its playback requested; otherwise nothing changes |
| `Trainer.App.OnStartClick` | morse_trainer/app.py:484-543 | recognition sets `groups * size` rounds and starts one if positive; group reception yields the generated text and plays nothing; every other case changes nothing |
| `Trainer.App.OnRecognitionClick` | morse_trainer/app.py:747-788 | a right answer uses up a round and asks the next character, or ends the exercise; inactive, unasked, buttonless or wrong answers change nothing |

## Left out

- Threads: the playing thread runs to completion inside `StartPlayback`. A stop
  is modelled only at a character boundary (`stopAt`). The race in which the
  thread raises `is_playing` after `start_playback` has already returned is
  not modelled.
- Audio output: opening, writing to and closing the PyAudio stream, and
  `AudioPlayer.stop`, are not modelled. Output is the sequence of timed
  segments, and `time.sleep` becomes a silence or a `Delay` event.
- Sine samples: `_generate_wave`'s `numpy.sin` values are not modelled. Only
  the sample count and the envelope over given samples are modelled.
- Floating point: seconds and samples are exact reals. The `float32` cast is
  not modelled.
- `PyStr.ParseInt`: reads ASCII decimal digits only. Python's `int()` also
  accepts other Unicode decimal digits; the menus only ever hold text made
  by `str()` of an integer, which is ASCII.
- `Morse.Upper`: upper-cases only the Latin and Russian alphabets. Python's
  full Unicode case mapping is not modelled.
- Lessons and characters are modelled as already-parsed records.
  `utils.py`, `main.py` and JSON loading are not part of this model.
- Lesson `new_chars` entries are single characters.
- `Trainer.App.OnRecognitionClick`: the button lookup is the input `hasButton`.
  In the code as written the keyboard never gets a button (see above).
- The `self.after(...)` timers: the next recognition round starts at once
  instead of 300 ms later. The button colour flashes and the
  group-reception output box are not modelled.
- `Trainer.App.OnStartClick`: the `_on_playback_complete` callback is never
  reached, because the request raises. Its layout is modelled on its own as
  `FormatOutput`.
- The error window of a wrong answer, with its three replays, is not
  modelled: its first playback request raises `TypeError`.
- Not modelled:
  - the themes, fonts and widgets;
  - the study buttons, which only request playback of one character;
  - the volume and sound-type handlers, which call player methods the player
    does not define.
- `Audio.TimingFor`: Python's `1.2 / wpm` on floats is exact real division
  here.
- The player's inter-word pause is computed but never used by playback.

The timing lemmas (`TraceDuration`, `ParisWord`) take the durations as a
parameter satisfying the 1/3/1/3 proportions the speed setting fixes. The
0.1 s sleep is a fixed constant.
