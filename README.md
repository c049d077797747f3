# OTTO core in Dafny: sample voices, fractional-step cursor, tape-deck keys

This project models three parts of the OTTO groovebox firmware and proves
properties of them.

- **Sampler** (`sampler.dfy`). The sampler module has a fixed bank of
  `NVoices` voices. Each voice plays a region `[in, out)` of one sample
  buffer, forward or backward, once or in a loop. `Sampler.Sampler.Process`
  handles one audio block in three steps:
  - The block's NoteOns restart the voice in slot `key % NVoices` and make it
    the current voice.
  - Every active voice adds its samples, frame by frame, into the shared
    output block. This follows the branch its mode selects.
  - The NoteOffs release their slots.

  Each of the four per-branch frame loops is an imperative method. It is
  proved against the specification functions `Emitted`, `Offset`, `After`
  and `Contribution`. The whole block is proved against `ApplyNoteOns`,
  `RenderAll`, `Mix` and `ApplyNoteOffs`. `Sampler.Sampler.Load` takes the
  file's samples as a parameter.
- **Fractional-step cursor and zip** (`float_step.dfy`). `float_step` walks
  a sequence by a rational step `num / den`. Its state is a base index plus
  a remainder in units of `1/den`. `++` carries the remainder into the index
  and `--` borrows from it. A ghost net move count ties the state to its
  meaning: after net count `n` the cursor reads element
  `floor(start + n * num / den)`, whatever order the moves came in. The
  sections of the unit test become methods whose `ensures` are the test's
  expectations. This covers every step size, the back-and-forth readings,
  subtraction and assignment through `zip`.
- **Tape-deck screen** (`tapescreen.dfy`). `TapeScreen::keypress`,
  `keyrelease` and `rotary` become pure transition functions on the
  screen's flag `stopRecOnRelease` and the deck state it writes. That state
  is the selected track, the looping flag, and a log of the transport
  operations invoked. The classes `Tapedeck` and `TapeScreen` do the same
  updates in place and are proved against those functions. A fold over a
  sequence of UI events shows the following:
  - The flag always equals an independent definition taken from the event
    history: a PLAY pressed while REC is held defers the punch-out until
    the next REC release.
  - The track stays in 0..3.
  - The operation log only grows.

`arith.dfy` holds the Euclidean division facts the other two models share.
Amplitudes are integers, so that mixing is exact.

## Model

| member | source | states |
|---|---|---|
| FloatStep.IndexAt | test/util/iterator.t.cpp:39-93 | the index read after net count n is the largest r with r·den at or below start·den + n·num |
| FloatStep.IndexAtIsFloor | test/util/iterator.t.cpp:39-93 | after net count n, the index read is the floor of start + n·num/den |
| FloatStep.RoundTripNet | test/util/iterator.t.cpp:100-115 | k increments then k decrements, or the reverse, have net count zero |
| FloatStep.Cursor.constructor | test/util/iterator.t.cpp:16-17 | a new cursor sits at the given index with remainder 0 and net count 0 |
| FloatStep.Cursor.Copy | test/util/iterator.t.cpp:106-112 | a copied cursor has the same position, step and history |
| FloatStep.Cursor.IndexIsFloor | test/util/iterator.t.cpp:39-51 | in a valid cursor the base index is floor(start + net·step) and the remainder is its fractional part |
| FloatStep.Cursor.Deref | test/util/iterator.t.cpp:106 | dereferencing reads the element at floor(start + net·step) |
| FloatStep.Cursor.Increment | test/util/iterator.t.cpp:107 | ++ keeps the remainder in [0, den), raises the net count by one, and reads floor(start + net·step) |
| FloatStep.Cursor.Decrement | test/util/iterator.t.cpp:110 | -- keeps the remainder in [0, den), lowers the net count by one, and reads floor(start + net·step) |
| FloatStep.Cursor.PostIncrement | test/util/iterator.t.cpp:107-109 | it++ moves the cursor; the returned copy already points after the move |
| FloatStep.Cursor.PostDecrement | test/util/iterator.t.cpp:110-111 | it-- moves the cursor; the returned copy already points after the move |
| FloatStep.Cursor.Apply | test/util/iterator.t.cpp:106-112 | after any list of moves the state depends only on their net count |
| FloatStep.Cursor.RoundTrip | test/util/iterator.t.cpp:100-115 | k increments then k decrements restore both the index and the remainder |
| FloatStep.Cursor.Minus | test/util/iterator.t.cpp:19 | for cursors built at the same index, last - first is their net-count difference; otherwise it is the step quotient truncated toward zero |
| FloatStep.TruncDiv | test/util/iterator.t.cpp:35 | the quotient truncates toward zero: the remainder has the sign of the dividend and is smaller than the divisor |
| FloatStep.CopyN | test/util/iterator.t.cpp:32-33 | copying count elements gives, at position k, the element the source cursor reads after k more moves |
| FloatStep.ReadsAtFloor | test/util/iterator.t.cpp:44-46 | the k-th read from a cursor is the element at floor(at + k·num/den), the exact position rounded down |
| FloatStep.StepOne | test/util/iterator.t.cpp:14-21 | with step 1, last - first is the array size and the range reads the array in order |
| FloatStep.StepMinusOne | test/util/iterator.t.cpp:23-37 | with step -1 from the last index, the distance is 10 and the reads are the array reversed |
| FloatStep.StepHalf | test/util/iterator.t.cpp:39-51 | with step 0.5, the 20 reads are the elements at floor(k·0.5) |
| FloatStep.StepMinusHalf | test/util/iterator.t.cpp:53-65 | with step -0.5 from index 9, the 18 reads are the elements at floor(9 - k·0.5) |
| FloatStep.StepThreeHalves | test/util/iterator.t.cpp:67-79 | with step 1.5, the 6 reads are the elements at floor(k·1.5) |
| FloatStep.StepMinusThreeHalves | test/util/iterator.t.cpp:81-93 | with step -1.5 from index 9, the 6 reads are the elements at floor(9 - k·1.5) |
| FloatStep.BackAndForth | test/util/iterator.t.cpp:104-112 | read, three ++, two --, one ++ reads the elements at net counts 0,1,2,3,2,1,2 |
| FloatStep.BackAndForthStepOne | test/util/iterator.t.cpp:100-115 | step 1 over 0..10 reads 0,1,2,3,2,1,2 |
| FloatStep.BackAndForthStepMinusOne | test/util/iterator.t.cpp:117-132 | step -1 from 10 reads 10,9,8,7,8,9,8 |
| FloatStep.BackAndForthStepHalf | test/util/iterator.t.cpp:134-149 | step 0.5 reads 0,0,1,1,1,0,1 |
| FloatStep.BackAndForthStepMinusHalf | test/util/iterator.t.cpp:151-166 | step -0.5 from 10 reads 10,9,9,8,9,9,9 |
| FloatStep.ZipAssign | test/util/iterator.t.cpp:183-187 | assigning through zip copies the source up to the shorter length and leaves the rest unchanged; equal lengths make the arrays equal |
| Sampler.Slot | src/modules/sampler.cpp:33 | every key addresses a slot below NVoices |
| Sampler.NoteOnAt | src/modules/sampler.cpp:32-36 | a NoteOn restarts only its slot, with the key held: at 0 forward, at length - 1 backward; a region in range becomes active |
| Sampler.NoteOffAt | src/modules/sampler.cpp:84-89 | a NoteOff releases only its slot; a stop-mode voice goes idle, and any other keeps its progress |
| Sampler.ApplyNoteOns | src/modules/sampler.cpp:31-38 | the NoteOns of a block, in order, keep every voice's region and mode and keep in-range voices in range |
| Sampler.ApplyNoteOffs | src/modules/sampler.cpp:83-91 | the NoteOffs of a block, in order, keep every voice's region and mode and keep in-range voices in range |
| Sampler.LastNoteOnSlot | src/modules/sampler.cpp:31-38 | the current voice after the NoteOns of a block stays a valid voice index |
| Sampler.LastNoteOnWins | src/modules/sampler.cpp:31-38 | the last NoteOn of a block decides the current voice: it becomes that NoteOn's slot |
| Sampler.NoNoteOnKeepsVoice | src/modules/sampler.cpp:31-38 | with no NoteOn in the block the current voice is kept |
| Sampler.Emitted | src/modules/sampler.cpp:43-79 | a voice emits no more frames than the block holds; an idle voice emits none, a held loop all of them, a non-wrapping voice no more than remain before its region's end (forward) or start (backward) |
| Sampler.Offset | src/modules/sampler.cpp:43-79 | every offset a voice reads during a block lies inside its region |
| Sampler.Contribution | src/modules/sampler.cpp:42-79 | a voice adds one value per frame: a sample of its own region for every frame it emits, silence after that |
| Sampler.RenderAll | src/modules/sampler.cpp:40-81 | rendering the bank keeps every voice's region and mode and keeps in-range voices in range |
| Sampler.MixStep | src/modules/sampler.cpp:40-81 | mixing one more voice of the bank adds its contribution to the block mixed so far |
| Sampler.Mix | src/modules/sampler.cpp:40-81 | mixing the voices keeps the length of the output block |
| Sampler.Blocks | src/modules/sampler.cpp:40-81 | any number of blocks keeps a voice in range |
| Sampler.AfterFits | src/modules/sampler.cpp:40-81 | rendering a block keeps a voice renderable and changes only its progress (the state `After` computes) |
| Sampler.RenderAllFits | src/modules/sampler.cpp:40-81 | rendering the bank keeps every voice renderable |
| Sampler.IdleUntouched | src/modules/sampler.cpp:43 | an idle voice adds only zeros and keeps its state |
| Sampler.ForwardOnce | src/modules/sampler.cpp:53-62 | forward one-shot emits min(n, length - progress) frames at rising offsets, and goes idle exactly when it reaches the region's end |
| Sampler.BackwardOnce | src/modules/sampler.cpp:72-78 | backward one-shot emits min(n, progress) frames at falling offsets and stays active, ending at max(progress - n, 0) |
| Sampler.LoopOffset | src/modules/sampler.cpp:44-71 | in a held loop, frame i reads the progress moved i frames around the region, forward or backward |
| Sampler.ForwardLoopWraps | src/modules/sampler.cpp:45-52 | a held forward loop emits every frame; each offset is the previous plus one, wrapping from the last sample to the first |
| Sampler.BackwardLoopWraps | src/modules/sampler.cpp:64-71 | a held backward loop emits every frame; each offset is the previous minus one, wrapping from the first sample to the last |
| Sampler.LoopPersists | src/modules/sampler.cpp:44-71 | a held loop never goes idle; after k blocks its progress is (progress ± k·n) mod length |
| Sampler.ForwardLoopPersists | src/modules/sampler.cpp:45-52 | after k blocks a held forward loop is at (progress + k·n) mod length |
| Sampler.BackwardLoopPersists | src/modules/sampler.cpp:64-71 | after k blocks a held backward loop is at (progress - k·n) mod length |
| Sampler.OneShotExhaustion | src/modules/sampler.cpp:30-62 | a triggered forward one-shot rendered for at least its length frames plays its region once in order, then zeros, then goes idle |
| Sampler.BackwardOneShotStaysActive | src/modules/sampler.cpp:72-78 | a triggered backward one-shot plays from the last sample to the second, then stays active at progress 0 and adds nothing to any later block |
| Sampler.StuckAtZero | src/modules/sampler.cpp:72-78 | a backward one-shot voice at progress 0 is unchanged by any number of blocks |
| Sampler.MixPointwise | src/modules/sampler.cpp:40-81 | each frame of the mix is the old frame plus the sum of every voice's contribution at that block-relative frame; frames from n on are untouched |
| Sampler.IdleVoicesAddNothing | src/modules/sampler.cpp:40-43 | voices that are all idle sum to zero at every frame |
| Sampler.RenderForwardLoop | src/modules/sampler.cpp:45-52 | the forward loop adds the voice's contribution into the block and returns the progress After gives |
| Sampler.RenderForwardOnce | src/modules/sampler.cpp:53-62 | the forward one-shot loop adds the voice's contribution into the block and returns the progress After gives |
| Sampler.RenderBackwardLoop | src/modules/sampler.cpp:64-71 | the backward loop adds the voice's contribution into the block and returns the progress After gives |
| Sampler.RenderBackwardOnce | src/modules/sampler.cpp:72-78 | the backward one-shot loop adds the voice's contribution into the block and returns the progress After gives |
| Sampler.RenderVoice | src/modules/sampler.cpp:42-80 | one voice's render, for an active or idle voice, is its contribution and its state after the block |
| Sampler.Sampler.Process | src/modules/sampler.cpp:30-92 | the block sets the current voice to the last NoteOn's slot; the bank ends as NoteOns, render, NoteOffs; the output gains the mix of the voices after the NoteOns; every voice stays renderable |
| Sampler.Sampler.HandleNoteOns | src/modules/sampler.cpp:31-38 | the first event loop leaves the bank as ApplyNoteOns and the current voice at the last NoteOn's slot |
| Sampler.Sampler.RenderBlock | src/modules/sampler.cpp:40-81 | the voice loop leaves the bank as RenderAll and the output block as Mix |
| Sampler.Sampler.HandleNoteOffs | src/modules/sampler.cpp:83-91 | the last event loop leaves the bank as ApplyNoteOffs |
| Sampler.Sampler.Load | src/modules/sampler.cpp:98-134 | the buffer becomes the file truncated to maxSampleSize; every voice's in and out bounds become the file's size, and nothing else changes |
| TapeScreen.KeyPress | src/modules/studio/tapedeck/tapescreen.hpp:24-90 | a key press clears the flag only for PLAY while REC is held; it selects only tracks 0..3, and only through the TRACK keys; it invokes at most one deck operation |
| TapeScreen.KeyRelease | src/modules/studio/tapedeck/tapescreen.hpp:108-126 | a key release sets the flag only on REC, and the flag is always set after REC; the track and the looping flag are kept; at most one deck operation is invoked |
| TapeScreen.Turn | src/modules/studio/tapedeck/tapescreen.hpp:92-106 | an encoder turn touches only the log, with at most one operation |
| TapeScreen.RecPressStartsRecording | src/modules/studio/tapedeck/tapescreen.hpp:28-30 | REC starts recording and is consumed |
| TapeScreen.PlayDefersPunchOut | src/modules/studio/tapedeck/tapescreen.hpp:31-35 | PLAY is never consumed and invokes nothing; with REC held it clears the flag |
| TapeScreen.RecReleaseStopsIffArmed | src/modules/studio/tapedeck/tapescreen.hpp:111-118 | releasing REC stops recording exactly when the flag is set, re-arms it otherwise, and is always consumed |
| TapeScreen.DeferredPunchOut | src/modules/studio/tapedeck/tapescreen.hpp:28-118 | REC, then PLAY while REC is held, then the REC release records without stopping; the next REC release stops |
| TapeScreen.TrackSelection | src/modules/studio/tapedeck/tapescreen.hpp:36-47 | TRACK_n selects track n - 1 and changes nothing else |
| TapeScreen.LeftRightSpool | src/modules/studio/tapedeck/tapescreen.hpp:48-55 | LEFT/RIGHT spool by -5/5, or move by one bar with SHIFT held, and are consumed |
| TapeScreen.LoopTwiceRestores | src/modules/studio/tapedeck/tapescreen.hpp:56-58 | LOOP toggles looping, and two presses restore the state |
| TapeScreen.LoopPoints | src/modules/studio/tapedeck/tapescreen.hpp:59-66 | LOOP_IN/LOOP_OUT set the loop point with SHIFT held, otherwise jump to it, and are consumed |
| TapeScreen.CutLiftDrop | src/modules/studio/tapedeck/tapescreen.hpp:67-89 | CUT is always consumed and cuts the selected track at the position only with tape operations and without SHIFT; LIFT and DROP change nothing and are consumed exactly when tape operations are allowed |
| TapeScreen.UnhandledPress | src/modules/studio/tapedeck/tapescreen.hpp:87-88 | an unknown key press changes nothing and is not consumed |
| TapeScreen.RotarySteps | src/modules/studio/tapedeck/tapescreen.hpp:92-106 | WHITE steps the base speed and RED the gain by the clicks; BLUE and GREEN do nothing |
| TapeScreen.LeftRightReleaseStops | src/modules/studio/tapedeck/tapescreen.hpp:119-122 | releasing LEFT or RIGHT stops the transport and is consumed |
| TapeScreen.UnhandledRelease | src/modules/studio/tapedeck/tapescreen.hpp:123-124 | releasing any key but REC, LEFT and RIGHT changes nothing and is not consumed |
| TapeScreen.FlagFollowsEvents | src/modules/studio/tapedeck/tapescreen.hpp:20-118 | after any event sequence, the flag equals the reference definition: the latest PLAY-with-REC (clears it) or REC release (sets it) decides |
| TapeScreen.TrackStaysInRange | src/modules/studio/tapedeck/tapescreen.hpp:36-47 | a track in 0..3 stays in 0..3 under any event sequence |
| TapeScreen.LogOnlyGrows | src/modules/studio/tapedeck/tapescreen.hpp:24-126 | under any event sequence the deck log keeps its prefix and grows by at most one operation per event |
| TapeScreen.Tapedeck.Invoke | src/modules/studio/tapedeck/tapescreen.hpp:28-30 | calling a deck operation appends exactly that operation to the log and keeps the track and the looping flag |
| TapeScreen.TapeScreen.constructor | src/modules/studio/tapedeck/tapescreen.hpp:20 | a new screen has the flag set |
| TapeScreen.TapeScreen.Keypress | src/modules/studio/tapedeck/tapescreen.hpp:24-90 | the in-place handler produces the state and the consumed result that KeyPress gives |
| TapeScreen.TapeScreen.Keyrelease | src/modules/studio/tapedeck/tapescreen.hpp:108-126 | the in-place handler produces the state and the consumed result that KeyRelease gives |
| TapeScreen.TapeScreen.RotaryTurned | src/modules/studio/tapedeck/tapescreen.hpp:92-106 | the in-place handler produces the state that Turn gives |

## Behaviour as written

The model follows the code as written on the following points.

- Post-increment: `*it++` and `*it--` read the element AFTER the move. The
  back-and-forth sections of the iterator test expect this (for example
  0, 1, 2, 3 for three `*first++` after the first read). It is not the
  conventional post-increment, which returns the element before the move.
  `PostIncrement` and `PostDecrement` therefore return a copy taken after
  the move.
- The render branch never idles a backward one-shot voice; only a NoteOff
  in stop mode does (`src/modules/sampler.cpp:87-89`). The branch at lines
  72-78 plays `min(nframes, progress)` frames and stops at progress 0. It
  never reads offset 0 and never sets the voice to -1. A forward one-shot
  voice goes idle when it reaches the end (lines 59-61). A backward one
  stays active at progress 0 and adds nothing from then on, until a NoteOff
  in stop mode or a new NoteOn. `BackwardOnce`,
  `BackwardOneShotStaysActive` and `StuckAtZero` prove this as written.
- `load` does not re-clamp regions. It truncates the buffer to
  `maxSampleSize`, but sets every voice's in and out bounds to the file's
  size, not the truncated size. It does not move the current in and out
  points. `Sampler.Sampler.Load` therefore keeps `Valid()` but cannot
  promise `Playable()`. Playing after a load needs the regions to fit the
  new buffer, which is the caller's obligation.
- Nothing in the code keeps a voice's progress inside its region. The
  edit screen steps the in and out points without touching the progress
  (`src/modules/sampler.cpp:149-152`). `load` raises their maxima to the
  file's size, which may exceed the buffer (lines 127-130). A voice whose
  region shrinks below its progress therefore reads
  `sampleData[in + playProgress]` outside its region. The forward loop does
  this at line 47, before the wrap at lines 49-50 can act. The backward
  branches do the same at lines 66 and 75. An empty region makes the
  forward loop read the sample at the region's start, outside the region.

## Left out

- Drawing (`draw` and the waveform widgets `load` refills), `timeStr`, and
  `SampleEditScreen::keypress`: user interface only.
- The sampler's constructor (ramp fill, samplerate callback):
  `Sampler.Sampler.constructor` only sets up a bank in a given state.
- Reading the sound file and logging in `load`: the file's samples are a
  parameter, and an empty file is the empty sequence.
- The global state: the block's MIDI events, the output block, the keys
  held (SHIFT, REC), the deck's `doTapeOps()` and `position()` are
  parameters of the operations.
- The bodies of the transport operations (`startRecord`, `stopRecord`,
  `spool`, `stop`, `goToBarRel`, the loop-point operations, slice `cut`,
  and stepping of `baseSpeed` and `gain`). They are recorded as entries in
  the deck's operation log.
- LIFT, DROP and SHIFT+CUT (glue) do nothing in the source; the model
  captures only whether they are consumed.
- Concurrency between the render and control contexts: every operation is
  one atomic step.
- `sampler.h` is not part of this model. `NVoices` is fixed at 4, and the
  mode is seen only through the three predicates `fwd`, `loop` and `stop`,
  kept independent. No proof depends on the value 4 beyond its being
  positive.
- The `float_step` header is not part of this model. Cursor subtraction is
  modelled as the exact step quotient when both cursors were built at the
  same index. Otherwise it is the truncated quotient of their positions.
- Floating point: amplitudes are integers and steps are rationals
  `num / den`, so the steps 1, -1, 0.5, -0.5, 1.5 and -1.5 of the tests
  are exact.
- Sampler.Sampler.Process: requires every region to be non-empty and inside
  the buffer, with progress idle or inside the region. The source does not
  establish this; it is an assumption of the model. The out-of-region reads
  the code makes without it are described under "Behaviour as written".
- ZipAssign: `util/iterator.hpp`, which defines `zip`, is not part of this
  model. The test zips two vectors of equal length (lines 171-187). That
  zip stops at the shorter of two unequal lengths is an assumption of the
  model.
- The random contents of the zip test's vectors: `ZipAssign` is stated for
  arbitrary arrays.
