/** The sample-voice renderer of the sampler module (`Sampler::process`,
    `Sampler::load`).

    A fixed bank of voices plays regions of one sample buffer. A NoteOn for
    `key` restarts voice `key % NVoices`; the render then advances every
    active voice frame by frame, adding its samples into the shared output
    block from frame 0; NoteOffs are applied after the render. Amplitudes are
    integers so that accumulation is exact. */
module Sampler {

  import opened Arith

  /** `nVoices`, the size of the voice bank. */
  const NVoices: nat := 4

  /** A voice's play mode, seen through the three predicates the renderer
      consults: `fwd()`, `loop()` and `stop()`. They are kept independent
      because the mode encoding is not part of this model. */
  datatype Mode = Mode(fwd: bool, loop: bool, stop: bool)

  /** One voice: the region `[inPoint, outPoint)` with the bounds its
      editable properties carry, the mode, the progress (an offset into the
      region, -1 when idle) and whether its key is held. */
  datatype Voice = Voice(
    inPoint: int, inMax: int,
    outPoint: int, outMax: int,
    mode: Mode,
    playProgress: int,
    trigger: bool)
  {
    /** `length()`: the number of samples in the region. */
    function Length(): int { outPoint - inPoint }

    predicate Active() { playProgress >= 0 }

    /** The wrap-around branches run while a looping voice's key is held. */
    predicate Looping() { mode.loop && trigger }
  }

  /** The events of one block; only NoteOn and NoteOff are acted upon. */
  datatype MidiEvent = NoteOn(key: nat) | NoteOff(key: nat) | OtherEvent

  /** A non-empty region whose progress is idle (-1) or an offset into it. */
  predicate InRange(v: Voice) {
    v.Length() > 0 && -1 <= v.playProgress < v.Length()
  }

  /** A voice that can be rendered against a buffer of `size` samples. */
  predicate Fits(v: Voice, size: int) {
    0 <= v.inPoint && v.outPoint <= size && InRange(v)
  }

  predicate BankFits(vs: seq<Voice>, size: int) {
    forall i :: 0 <= i < |vs| ==> Fits(vs[i], size)
  }

  /** The slot a key addresses. */
  function Slot(key: nat): (s: nat)
    ensures s < NVoices
  {
    key % NVoices
  }

  // ---------------------------------------------------------------------
  // Events

  /** A NoteOn: the voice in the key's slot restarts at the start of its
      region (forward) or at its last sample (backward), with its key held.
      No other voice changes. */
  function NoteOnAt(vs: seq<Voice>, key: nat): (r: seq<Voice>)
    requires |vs| == NVoices
    ensures |r| == NVoices
    ensures forall i :: 0 <= i < NVoices && i != Slot(key) ==> r[i] == vs[i]
    ensures r[Slot(key)].trigger
    ensures InRange(vs[Slot(key)]) ==> r[Slot(key)].Active() && InRange(r[Slot(key)])
    ensures r[Slot(key)].mode.fwd ==> r[Slot(key)].playProgress == 0
    ensures !r[Slot(key)].mode.fwd ==> r[Slot(key)].playProgress == r[Slot(key)].Length() - 1
    ensures r[Slot(key)] == vs[Slot(key)].(playProgress := r[Slot(key)].playProgress, trigger := true)
  {
    var v := vs[Slot(key)];
    vs[Slot(key) := v.(playProgress := if v.mode.fwd then 0 else v.Length() - 1, trigger := true)]
  }

  /** A NoteOff: the voice in the key's slot loses its key and, if its mode
      stops on release, goes idle. No other voice changes. */
  function NoteOffAt(vs: seq<Voice>, key: nat): (r: seq<Voice>)
    requires |vs| == NVoices
    ensures |r| == NVoices
    ensures forall i :: 0 <= i < NVoices && i != Slot(key) ==> r[i] == vs[i]
    ensures !r[Slot(key)].trigger
    ensures vs[Slot(key)].mode.stop ==> !r[Slot(key)].Active()
    ensures !vs[Slot(key)].mode.stop ==> r[Slot(key)].playProgress == vs[Slot(key)].playProgress
    ensures r[Slot(key)] == vs[Slot(key)].(playProgress := r[Slot(key)].playProgress, trigger := false)
  {
    var v := vs[Slot(key)];
    vs[Slot(key) := v.(trigger := false, playProgress := if v.mode.stop then -1 else v.playProgress)]
  }

  /** Two states of one voice: same region and mode, and the later one is
      in range whenever the earlier one is. */
  predicate SameRegion(w: Voice, v: Voice) {
    w.inPoint == v.inPoint && w.outPoint == v.outPoint &&
    w.inMax == v.inMax && w.outMax == v.outMax && w.mode == v.mode &&
    (InRange(v) ==> InRange(w))
  }

  /** The bank after the block's NoteOns, in event order. */
  function ApplyNoteOns(vs: seq<Voice>, events: seq<MidiEvent>): (r: seq<Voice>)
    requires |vs| == NVoices
    ensures |r| == NVoices
    ensures forall i :: 0 <= i < NVoices ==> SameRegion(r[i], vs[i])
    decreases |events|
  {
    if events == [] then vs
    else
      var before := ApplyNoteOns(vs, events[..|events| - 1]);
      var e := events[|events| - 1];
      if e.NoteOn? then NoteOnAt(before, e.key) else before
  }

  /** The bank after the block's NoteOffs, in event order. */
  function ApplyNoteOffs(vs: seq<Voice>, events: seq<MidiEvent>): (r: seq<Voice>)
    requires |vs| == NVoices
    ensures |r| == NVoices
    ensures forall i :: 0 <= i < NVoices ==> SameRegion(r[i], vs[i])
    decreases |events|
  {
    if events == [] then vs
    else
      var before := ApplyNoteOffs(vs, events[..|events| - 1]);
      var e := events[|events| - 1];
      if e.NoteOff? then NoteOffAt(before, e.key) else before
  }

  /** `currentVoiceIdx` after the block: the slot of the last NoteOn. */
  function LastNoteOnSlot(events: seq<MidiEvent>, current: nat): (r: nat)
    // A valid voice index stays valid.
    ensures current < NVoices ==> r < NVoices
    decreases |events|
  {
    if events == [] then current
    else
      var e := events[|events| - 1];
      if e.NoteOn? then Slot(e.key) else LastNoteOnSlot(events[..|events| - 1], current)
  }

  /** `currentVoiceIdx` ends as the slot of the block's last NoteOn, and is
      unchanged by a block without NoteOns. */
  lemma {:induction false} LastNoteOnWins(events: seq<MidiEvent>, current: nat, i: nat)
    requires i < |events| && events[i].NoteOn?
    requires forall j :: i < j < |events| ==> !events[j].NoteOn?
    ensures LastNoteOnSlot(events, current) == Slot(events[i].key)
    decreases |events|
  {
    if i < |events| - 1 {
      LastNoteOnWins(events[..|events| - 1], current, i);
    }
  }

  lemma {:induction false} NoNoteOnKeepsVoice(events: seq<MidiEvent>, current: nat)
    requires forall j :: 0 <= j < |events| ==> !events[j].NoteOn?
    ensures LastNoteOnSlot(events, current) == current
    decreases |events|
  {
    if events != [] {
      NoNoteOnKeepsVoice(events[..|events| - 1], current);
    }
  }

  // ---------------------------------------------------------------------
  // Rendering one voice

  /** The number of frames a voice adds to a block of n frames. */
  function Emitted(v: Voice, n: nat): (r: nat)
    requires InRange(v)
    // Never more frames than the block holds; an idle voice emits none, a
    // held loop all of them, and a voice that does not wrap never more
    // than remain in its region.
    ensures r <= n
    ensures !v.Active() ==> r == 0
    ensures v.Active() && v.Looping() ==> r == n
    ensures v.Active() && !v.Looping() && v.mode.fwd ==> r <= v.Length() - v.playProgress
    ensures v.Active() && !v.Looping() && !v.mode.fwd ==> r <= v.playProgress
  {
    if !v.Active() then 0
    else if v.Looping() then n
    else if v.mode.fwd then Min(n, v.Length() - v.playProgress)
    else Min(n, v.playProgress)
  }

  /** The region offset a voice reads at frame i of a block of n frames. It
      always lies inside the region. */
  function Offset(v: Voice, n: nat, i: nat): (r: int)
    requires InRange(v) && i < Emitted(v, n)
    ensures 0 <= r < v.Length()
  {
    var p, len := v.playProgress, v.Length();
    if v.Looping() then (if v.mode.fwd then (p + i) % len else (p - i) % len)
    else if v.mode.fwd then p + i
    else p - i
  }

  /** The voice after rendering a block of n frames. */
  function After(v: Voice, n: nat): (r: Voice)
    requires InRange(v)
  {
    if !v.Active() then v
    else
      var p, len := v.playProgress, v.Length();
      v.(playProgress :=
           if v.Looping() then (if v.mode.fwd then (p + n) % len else (p - n) % len)
           else if v.mode.fwd then (if p + Emitted(v, n) >= len then -1 else p + Emitted(v, n))
           else p - Emitted(v, n))
  }

  /** What a voice adds to each frame of a block of n frames. */
  function Contribution(v: Voice, samples: seq<int>, n: nat): (c: seq<int>)
    requires Fits(v, |samples|)
    // One value per frame of the block: a sample of the voice's own region
    // for each frame it emits, silence after that.
    ensures |c| == n
    ensures forall i :: 0 <= i < Emitted(v, n) ==> c[i] in samples[v.inPoint..v.outPoint]
    ensures forall i :: Emitted(v, n) <= i < n ==> c[i] == 0
  {
    seq(n, i requires 0 <= i < n =>
      if i < Emitted(v, n) then samples[v.inPoint + Offset(v, n, i)] else 0)
  }

  /** `acc` with `c` added frame by frame from frame 0. */
  function AddInto(acc: seq<int>, c: seq<int>): (r: seq<int>)
    requires |c| <= |acc|
  {
    seq(|acc|, j requires 0 <= j < |acc| => if j < |c| then acc[j] + c[j] else acc[j])
  }

  /** The output block after every voice of `vs`, in order, has been added. */
  function Mix(acc: seq<int>, vs: seq<Voice>, samples: seq<int>, n: nat): (r: seq<int>)
    requires n <= |acc| && BankFits(vs, |samples|)
    ensures |r| == |acc|
    decreases |vs|
  {
    if vs == [] then acc
    else AddInto(Mix(acc, vs[..|vs| - 1], samples, n), Contribution(vs[|vs| - 1], samples, n))
  }

  /** Mixing one more voice of the bank adds its contribution. */
  lemma MixStep(acc: seq<int>, vs: seq<Voice>, samples: seq<int>, n: nat, i: nat)
    requires n <= |acc| && BankFits(vs, |samples|) && i < |vs|
    ensures BankFits(vs[..i], |samples|) && BankFits(vs[..i + 1], |samples|)
    ensures Mix(acc, vs[..i + 1], samples, n) ==
            AddInto(Mix(acc, vs[..i], samples, n), Contribution(vs[i], samples, n))
  {
    assert vs[..i + 1][..i] == vs[..i];
    assert vs[..i + 1][i] == vs[i];
  }

  /** The bank after rendering a block of n frames. */
  function RenderAll(vs: seq<Voice>, n: nat): (r: seq<Voice>)
    requires forall i :: 0 <= i < |vs| ==> InRange(vs[i])
    // Every voice keeps its region and mode and stays in range.
    ensures |r| == |vs| && forall i :: 0 <= i < |vs| ==> SameRegion(r[i], vs[i])
  {
    seq(|vs|, i requires 0 <= i < |vs| => After(vs[i], n))
  }

  /** The whole effect of `process` on the bank. */
  function ProcessedBank(vs: seq<Voice>, events: seq<MidiEvent>, size: int, n: nat): seq<Voice>
    requires |vs| == NVoices && BankFits(vs, size)
  {
    var on := ApplyNoteOns(vs, events);
    ApplyNoteOffs(RenderAll(on, n), events)
  }

  // ---------------------------------------------------------------------
  // Properties of the render

  /** Rendering keeps a voice renderable and changes only its progress. */
  lemma AfterFits(v: Voice, size: int, n: nat)
    requires Fits(v, size)
    ensures Fits(After(v, n), size)
    ensures After(v, n) == v.(playProgress := After(v, n).playProgress)
  {
  }

  lemma RenderAllFits(vs: seq<Voice>, size: int, n: nat)
    requires BankFits(vs, size)
    ensures |RenderAll(vs, n)| == |vs| && BankFits(RenderAll(vs, n), size)
  {
    forall i | 0 <= i < |vs| ensures Fits(RenderAll(vs, n)[i], size) {
      AfterFits(vs[i], size, n);
    }
  }

  /** An idle voice adds nothing and keeps its state. */
  lemma IdleUntouched(v: Voice, samples: seq<int>, n: nat)
    requires Fits(v, |samples|) && !v.Active()
    ensures After(v, n) == v
    ensures Contribution(v, samples, n) == seq(n, i => 0)
  {
  }

  /** Forward without wrap-around (one-shot, or a loop whose key was
      released): exactly min(n, length - progress) frames, reading the
      offsets from the progress up; the voice goes idle exactly when it
      reaches the end of its region. */
  lemma ForwardOnce(v: Voice, n: nat)
    requires InRange(v) && v.Active() && v.mode.fwd && !v.Looping()
    ensures Emitted(v, n) == Min(n, v.Length() - v.playProgress)
    ensures forall i :: 0 <= i < Emitted(v, n) ==> Offset(v, n, i) == v.playProgress + i
    ensures !After(v, n).Active() <==> v.playProgress + n >= v.Length()
    ensures After(v, n).Active() ==> After(v, n).playProgress == v.playProgress + n
  {
  }

  /** Backward without wrap-around: exactly min(n, progress) frames, reading
      the offsets from the progress down; the voice ends at progress 0 and
      this branch never makes it idle. */
  lemma BackwardOnce(v: Voice, n: nat)
    requires InRange(v) && v.Active() && !v.mode.fwd && !v.Looping()
    ensures Emitted(v, n) == Min(n, v.playProgress)
    ensures forall i :: 0 <= i < Emitted(v, n) ==> Offset(v, n, i) == v.playProgress - i
    ensures After(v, n).Active()
    ensures After(v, n).playProgress == if n >= v.playProgress then 0 else v.playProgress - n
  {
  }

  /** In the wrap-around branches, frame i reads the progress moved by i
      frames around the region. */
  lemma LoopOffset(v: Voice, n: nat, i: nat)
    requires InRange(v) && v.Active() && v.Looping() && i < n
    ensures v.mode.fwd ==> Offset(v, n, i) == (v.playProgress + i) % v.Length()
    ensures !v.mode.fwd ==> Offset(v, n, i) == (v.playProgress - i) % v.Length()
  {
  }

  /** Forward wrap-around: every frame is emitted, and each offset (at
      frame j == i + 1) is the previous one plus one, wrapping from the last sample of the region to
      its first. */
  lemma ForwardLoopWraps(v: Voice, n: nat)
    requires InRange(v) && v.Active() && v.mode.fwd && v.Looping()
    ensures Emitted(v, n) == n
    ensures After(v, n).Active()
    ensures n > 0 ==> Offset(v, n, 0) == v.playProgress
    ensures forall i, j :: 0 <= i && j == i + 1 && j < n ==>
      Offset(v, n, j) == if Offset(v, n, i) == v.Length() - 1 then 0 else Offset(v, n, i) + 1
  {
    DivModUnique(v.playProgress, v.Length(), 0, v.playProgress);
    forall i, j | 0 <= i && j == i + 1 && j < n
      ensures Offset(v, n, j) == if Offset(v, n, i) == v.Length() - 1 then 0 else Offset(v, n, i) + 1
    {
      var len, a := v.Length(), v.playProgress + i;
      LoopOffset(v, n, i);
      LoopOffset(v, n, j);
      assert Offset(v, n, i) == a % len;
      assert Offset(v, n, j) == (a + 1) % len;
      ModSucc(a, len);
    }
  }

  /** Backward wrap-around: every frame is emitted, and each offset (at
      frame j == i + 1) is the previous one minus one, wrapping from the first sample of the region
      to its last. */
  lemma BackwardLoopWraps(v: Voice, n: nat)
    requires InRange(v) && v.Active() && !v.mode.fwd && v.Looping()
    ensures Emitted(v, n) == n
    ensures After(v, n).Active()
    ensures n > 0 ==> Offset(v, n, 0) == v.playProgress
    ensures forall i, j :: 0 <= i && j == i + 1 && j < n ==>
      Offset(v, n, j) == if Offset(v, n, i) == 0 then v.Length() - 1 else Offset(v, n, i) - 1
  {
    DivModUnique(v.playProgress, v.Length(), 0, v.playProgress);
    forall i, j | 0 <= i && j == i + 1 && j < n
      ensures Offset(v, n, j) == if Offset(v, n, i) == 0 then v.Length() - 1 else Offset(v, n, i) - 1
    {
      var len, a := v.Length(), v.playProgress - i;
      LoopOffset(v, n, i);
      LoopOffset(v, n, j);
      assert Offset(v, n, i) == a % len;
      assert Offset(v, n, j) == (a - 1) % len;
      ModPred(a, len);
    }
  }

  /** The voice after k consecutive blocks of n frames, with no events. */
  function Blocks(v: Voice, n: nat, k: nat): (r: Voice)
    requires InRange(v)
    ensures InRange(r)
    decreases k
  {
    if k == 0 then v else Blocks(After(v, n), n, k - 1)
  }

  /** A looping voice whose key stays held never goes idle, and after k
      blocks its progress is the start progress moved by k * n frames
      around the region. */
  lemma LoopPersists(v: Voice, n: nat, k: nat)
    requires InRange(v) && v.Active() && v.Looping()
    ensures Blocks(v, n, k).Active()
    ensures v.mode.fwd ==> Blocks(v, n, k).playProgress == (v.playProgress + k * n) % v.Length()
    ensures !v.mode.fwd ==> Blocks(v, n, k).playProgress == (v.playProgress - k * n) % v.Length()
  {
    if v.mode.fwd {
      ForwardLoopPersists(v, n, k);
    } else {
      BackwardLoopPersists(v, n, k);
    }
  }

  lemma {:induction false} ForwardLoopPersists(v: Voice, n: nat, k: nat)
    requires InRange(v) && v.Active() && v.Looping() && v.mode.fwd
    ensures Blocks(v, n, k).playProgress == (v.playProgress + k * n) % v.Length()
    decreases k
  {
    var len, p := v.Length(), v.playProgress;
    if k == 0 {
      assert k * n == 0;
      DivModUnique(p, len, 0, p);
    } else {
      var w := After(v, n);
      assert w == v.(playProgress := (p + n) % len);
      assert Blocks(v, n, k) == Blocks(w, n, k - 1);
      ForwardLoopPersists(w, n, k - 1);
      var m := (k - 1) * n;
      MulSubDistrib(k, 1, n);
      calc {
        Blocks(v, n, k).playProgress;
        (w.playProgress + m) % len;
        { ModAddMod(p + n, m, len); }
        (p + n + m) % len;
        { assert p + n + m == p + k * n; }
        (p + k * n) % len;
      }
    }
  }

  lemma {:induction false} BackwardLoopPersists(v: Voice, n: nat, k: nat)
    requires InRange(v) && v.Active() && v.Looping() && !v.mode.fwd
    ensures Blocks(v, n, k).playProgress == (v.playProgress - k * n) % v.Length()
    decreases k
  {
    var len, p := v.Length(), v.playProgress;
    if k == 0 {
      assert k * n == 0;
      DivModUnique(p, len, 0, p);
    } else {
      var w := After(v, n);
      assert w == v.(playProgress := (p - n) % len);
      assert Blocks(v, n, k) == Blocks(w, n, k - 1);
      BackwardLoopPersists(w, n, k - 1);
      var m := (k - 1) * n;
      MulSubDistrib(k, 1, n);
      calc {
        Blocks(v, n, k).playProgress;
        (w.playProgress - m) % len;
        { ModAddMod(p - n, -m, len); }
        (p - n - m) % len;
        { assert p - n - m == p - k * n; }
        (p - k * n) % len;
      }
    }
  }

  /** A freshly triggered forward one-shot voice rendered for at least as
      many frames as its region holds plays the region once, in order, and
      then goes idle without reading past its end. */
  lemma OneShotExhaustion(vs: seq<Voice>, key: nat, samples: seq<int>, m: nat)
    requires |vs| == NVoices && Fits(vs[Slot(key)], |samples|)
    requires vs[Slot(key)].mode.fwd && !vs[Slot(key)].mode.loop
    requires m >= vs[Slot(key)].Length()
    ensures var v := NoteOnAt(vs, key)[Slot(key)];
      Emitted(v, m) == v.Length() &&
      Contribution(v, samples, m) == samples[v.inPoint..v.outPoint] + seq(m - v.Length(), i => 0) &&
      !After(v, m).Active()
  {
    var v := NoteOnAt(vs, key)[Slot(key)];
    var c := Contribution(v, samples, m);
    var expected := samples[v.inPoint..v.outPoint] + seq(m - v.Length(), i => 0);
    assert |c| == |expected|;
    forall i | 0 <= i < m ensures c[i] == expected[i] {
      if i < v.Length() {
        assert Offset(v, m, i) == i;
      }
    }
  }

  /** A freshly triggered backward one-shot voice rendered for at least as
      many frames as its region holds plays all but the first sample of the
      region, last to second, and then stays active at progress 0 adding
      nothing to later blocks. */
  lemma BackwardOneShotStaysActive(vs: seq<Voice>, key: nat, samples: seq<int>, m: nat, k: nat)
    requires |vs| == NVoices && Fits(vs[Slot(key)], |samples|)
    requires !vs[Slot(key)].mode.fwd && !vs[Slot(key)].mode.loop
    requires m >= vs[Slot(key)].Length()
    ensures var v := NoteOnAt(vs, key)[Slot(key)];
      Emitted(v, m) == v.Length() - 1 &&
      (forall i :: 0 <= i < Emitted(v, m) ==> Offset(v, m, i) == v.Length() - 1 - i) &&
      After(v, m).Active() && After(v, m).playProgress == 0 &&
      Blocks(After(v, m), m, k) == After(v, m) &&
      Emitted(Blocks(After(v, m), m, k), m) == 0
  {
    var v := NoteOnAt(vs, key)[Slot(key)];
    StuckAtZero(After(v, m), m, k);
  }

  lemma {:induction false} StuckAtZero(v: Voice, n: nat, k: nat)
    requires InRange(v) && v.playProgress == 0 && !v.mode.fwd && !v.Looping()
    ensures Blocks(v, n, k) == v
    decreases k
  {
    if k > 0 {
      assert After(v, n) == v;
      StuckAtZero(v, n, k - 1);
    }
  }

  /** What the voices of `vs` add to frame j, summed. */
  function SumAt(vs: seq<Voice>, samples: seq<int>, n: nat, j: nat): int
    requires BankFits(vs, |samples|) && j < n
    decreases |vs|
  {
    if vs == [] then 0
    else SumAt(vs[..|vs| - 1], samples, n, j) + Contribution(vs[|vs| - 1], samples, n)[j]
  }

  /** Voice additivity: each frame of the mixed block is the frame as it
      was plus the sum of what every voice adds at that same block-relative
      frame; frames from n on are untouched. */
  lemma {:induction false} MixPointwise(acc: seq<int>, vs: seq<Voice>, samples: seq<int>, n: nat, j: nat)
    requires n <= |acc| && BankFits(vs, |samples|) && j < |acc|
    ensures j < n ==> Mix(acc, vs, samples, n)[j] == acc[j] + SumAt(vs, samples, n, j)
    ensures j >= n ==> Mix(acc, vs, samples, n)[j] == acc[j]
    decreases |vs|
  {
    if vs != [] {
      MixPointwise(acc, vs[..|vs| - 1], samples, n, j);
    }
  }

  /** Idle voices can be dropped from the mix. */
  lemma {:induction false} IdleVoicesAddNothing(vs: seq<Voice>, samples: seq<int>, n: nat, j: nat)
    requires BankFits(vs, |samples|) && j < n
    requires forall i :: 0 <= i < |vs| ==> !vs[i].Active()
    ensures SumAt(vs, samples, n, j) == 0
    decreases |vs|
  {
    if vs != [] {
      IdleVoicesAddNothing(vs[..|vs| - 1], samples, n, j);
    }
  }

  // ---------------------------------------------------------------------
  // The frame loops of `process`, one per branch

  /** Forward, looping while the key is held. */
  method RenderForwardLoop(v: Voice, samples: seq<int>, proc: array<int>, n: nat) returns (p: int)
    requires Fits(v, |samples|) && v.Active() && v.mode.fwd && v.Looping()
    requires n <= proc.Length
    modifies proc
    ensures p == After(v, n).playProgress
    ensures proc[..] == AddInto(old(proc[..]), Contribution(v, samples, n))
  {
    p := v.playProgress;
    var len := v.Length();
    DivModUnique(v.playProgress, len, 0, v.playProgress);
    for i := 0 to n
      invariant 0 <= p < len
      invariant p == (v.playProgress + i) % len
      invariant forall j :: 0 <= j < i ==> proc[j] == old(proc[j]) + samples[v.inPoint + Offset(v, n, j)]
      invariant forall j :: i <= j < proc.Length ==> proc[j] == old(proc[j])
    {
      ghost var x := v.playProgress + i;
      LoopOffset(v, n, i);
      assert Offset(v, n, i) == p;
      proc[i] := proc[i] + samples[v.inPoint + p];
      ModSucc(x, len);
      p := p + 1;
      if p >= len {
        p := 0;
      }
      assert v.playProgress + (i + 1) == x + 1;
    }
    AddedFrames(v, samples, n, old(proc[..]), proc[..]);
  }

  /** Forward without wrap-around. */
  method RenderForwardOnce(v: Voice, samples: seq<int>, proc: array<int>, n: nat) returns (p: int)
    requires Fits(v, |samples|) && v.Active() && v.mode.fwd && !v.Looping()
    requires n <= proc.Length
    modifies proc
    ensures p == After(v, n).playProgress
    ensures proc[..] == AddInto(old(proc[..]), Contribution(v, samples, n))
  {
    p := v.playProgress;
    var frms := Min(n, v.Length() - p);
    for i := 0 to frms
      invariant p == v.playProgress + i
      invariant forall j :: 0 <= j < i ==> proc[j] == old(proc[j]) + samples[v.inPoint + Offset(v, n, j)]
      invariant forall j :: i <= j < proc.Length ==> proc[j] == old(proc[j])
    {
      proc[i] := proc[i] + samples[v.inPoint + p];
      p := p + 1;
    }
    if p >= v.Length() {
      p := -1;
    }
    AddedFrames(v, samples, n, old(proc[..]), proc[..]);
  }

  /** Backward, looping while the key is held. */
  method RenderBackwardLoop(v: Voice, samples: seq<int>, proc: array<int>, n: nat) returns (p: int)
    requires Fits(v, |samples|) && v.Active() && !v.mode.fwd && v.Looping()
    requires n <= proc.Length
    modifies proc
    ensures p == After(v, n).playProgress
    ensures proc[..] == AddInto(old(proc[..]), Contribution(v, samples, n))
  {
    p := v.playProgress;
    var len := v.Length();
    DivModUnique(v.playProgress, len, 0, v.playProgress);
    for i := 0 to n
      invariant 0 <= p < len
      invariant p == (v.playProgress - i) % len
      invariant forall j :: 0 <= j < i ==> proc[j] == old(proc[j]) + samples[v.inPoint + Offset(v, n, j)]
      invariant forall j :: i <= j < proc.Length ==> proc[j] == old(proc[j])
    {
      ghost var x := v.playProgress - i;
      LoopOffset(v, n, i);
      assert Offset(v, n, i) == p;
      proc[i] := proc[i] + samples[v.inPoint + p];
      ModPred(x, len);
      p := p - 1;
      if p < 0 {
        p := len - 1;
      }
      assert v.playProgress - (i + 1) == x - 1;
    }
    AddedFrames(v, samples, n, old(proc[..]), proc[..]);
  }

  /** Backward without wrap-around. */
  method RenderBackwardOnce(v: Voice, samples: seq<int>, proc: array<int>, n: nat) returns (p: int)
    requires Fits(v, |samples|) && v.Active() && !v.mode.fwd && !v.Looping()
    requires n <= proc.Length
    modifies proc
    ensures p == After(v, n).playProgress
    ensures proc[..] == AddInto(old(proc[..]), Contribution(v, samples, n))
  {
    p := v.playProgress;
    var frms := Min(n, p);
    for i := 0 to frms
      invariant p == v.playProgress - i
      invariant forall j :: 0 <= j < i ==> proc[j] == old(proc[j]) + samples[v.inPoint + Offset(v, n, j)]
      invariant forall j :: i <= j < proc.Length ==> proc[j] == old(proc[j])
    {
      proc[i] := proc[i] + samples[v.inPoint + p];
      p := p - 1;
    }
    AddedFrames(v, samples, n, old(proc[..]), proc[..]);
  }

  /** The frame-by-frame description the loops establish is the block
      description: frames below Emitted gained the voice's sample, the rest
      are unchanged. */
  lemma AddedFrames(v: Voice, samples: seq<int>, n: nat, before: seq<int>, after: seq<int>)
    requires Fits(v, |samples|) && n <= |before| == |after|
    requires forall j :: 0 <= j < Emitted(v, n) ==> after[j] == before[j] + samples[v.inPoint + Offset(v, n, j)]
    requires forall j :: Emitted(v, n) <= j < |after| ==> after[j] == before[j]
    ensures after == AddInto(before, Contribution(v, samples, n))
  {
  }

  /** One voice's share of the render: the branch its mode selects, or
      nothing for an idle voice. */
  method RenderVoice(v: Voice, samples: seq<int>, proc: array<int>, n: nat) returns (r: Voice)
    requires Fits(v, |samples|) && n <= proc.Length
    modifies proc
    ensures r == After(v, n)
    ensures proc[..] == AddInto(old(proc[..]), Contribution(v, samples, n))
  {
    var p := v.playProgress;
    if p >= 0 {
      if v.mode.fwd {
        if v.mode.loop && v.trigger {
          p := RenderForwardLoop(v, samples, proc, n);
        } else {
          p := RenderForwardOnce(v, samples, proc, n);
        }
      } else {
        if v.mode.loop && v.trigger {
          p := RenderBackwardLoop(v, samples, proc, n);
        } else {
          p := RenderBackwardOnce(v, samples, proc, n);
        }
      }
    } else {
      AddedFrames(v, samples, n, proc[..], proc[..]);
    }
    r := v.(playProgress := p);
  }

  // ---------------------------------------------------------------------
  // The module

  class Sampler {
    /** `data.voiceData`. */
    var voices: array<Voice>
    /** `sampleData`, replaced wholesale by `load`. */
    var sampleData: seq<int>
    /** `maxSampleSize`, the buffer's capacity. */
    var maxSampleSize: nat
    /** `currentVoiceIdx`, the slot of the last NoteOn. */
    var currentVoiceIdx: nat

    ghost predicate Valid()
      reads this
    {
      voices.Length == NVoices && currentVoiceIdx < NVoices
    }

    /** Every voice can be rendered against the current buffer. */
    ghost predicate Playable()
      reads this, voices
    {
      Valid() && BankFits(voices[..], |sampleData|)
    }

    /** Sets up a bank in a given state; the sampler's own constructor
        (ramp fill, samplerate callback) is not part of this model. */
    constructor (bank: seq<Voice>, samples: seq<int>, capacity: nat)
      requires |bank| == NVoices
      ensures Valid() && fresh(voices)
      ensures voices[..] == bank && sampleData == samples && maxSampleSize == capacity
      ensures currentVoiceIdx == 0
    {
      var a := new Voice[NVoices](i requires 0 <= i < NVoices => bank[i]);
      voices := a;
      sampleData, maxSampleSize, currentVoiceIdx := samples, capacity, 0;
    }

    /** `Sampler::process(nframes)`: dispatch the block's NoteOns, render
        every voice into `proc[0..nframes)`, then apply the NoteOffs. */
    method Process(events: seq<MidiEvent>, proc: array<int>, nframes: nat)
      requires Playable() && nframes <= proc.Length
      modifies this, voices, proc
      ensures Playable() && voices == old(voices)
      ensures sampleData == old(sampleData) && maxSampleSize == old(maxSampleSize)
      ensures currentVoiceIdx == LastNoteOnSlot(events, old(currentVoiceIdx))
      ensures voices[..] == ProcessedBank(old(voices[..]), events, |sampleData|, nframes)
      ensures proc[..] == Mix(old(proc[..]), ApplyNoteOns(old(voices[..]), events), sampleData, nframes)
    {
      HandleNoteOns(events);
      RenderBlock(proc, nframes);
      HandleNoteOffs(events);
    }

    /** The first event loop of `process`: each NoteOn restarts its slot and
        makes it the current voice. */
    method HandleNoteOns(events: seq<MidiEvent>)
      requires Playable()
      modifies this, voices
      ensures Playable() && voices == old(voices)
      ensures sampleData == old(sampleData) && maxSampleSize == old(maxSampleSize)
      ensures currentVoiceIdx == LastNoteOnSlot(events, old(currentVoiceIdx))
      ensures voices[..] == ApplyNoteOns(old(voices[..]), events)
    {
      for e := 0 to |events|
        invariant voices == old(voices) && voices.Length == NVoices && currentVoiceIdx < NVoices
        invariant sampleData == old(sampleData) && maxSampleSize == old(maxSampleSize)
        invariant voices[..] == ApplyNoteOns(old(voices[..]), events[..e])
        invariant currentVoiceIdx == LastNoteOnSlot(events[..e], old(currentVoiceIdx))
      {
        assert events[..e + 1][..e] == events[..e];
        if events[e].NoteOn? {
          currentVoiceIdx := Slot(events[e].key);
          var v := voices[currentVoiceIdx];
          voices[currentVoiceIdx] := v.(playProgress := if v.mode.fwd then 0 else v.Length() - 1, trigger := true);
        }
      }
      assert events[..|events|] == events;
    }

    /** The voice loop of `process`: every voice, in bank order, renders
        its share of the block into `proc`. */
    method RenderBlock(proc: array<int>, nframes: nat)
      requires Playable() && nframes <= proc.Length
      modifies voices, proc
      ensures Playable()
      ensures voices[..] == RenderAll(old(voices[..]), nframes)
      ensures proc[..] == Mix(old(proc[..]), old(voices[..]), sampleData, nframes)
    {
      ghost var on := voices[..];
      for vi := 0 to NVoices
        invariant BankFits(on, |sampleData|) && |on| == NVoices
        invariant forall j :: 0 <= j < vi ==> voices[j] == After(on[j], nframes)
        invariant forall j :: vi <= j < NVoices ==> voices[j] == on[j]
        invariant proc[..] == Mix(old(proc[..]), on[..vi], sampleData, nframes)
      {
        MixStep(old(proc[..]), on, sampleData, nframes, vi);
        ghost var pre := voices[..];
        var r := RenderVoice(voices[vi], sampleData, proc, nframes);
        assert voices[..] == pre;
        voices[vi] := r;
        assert voices[..] == pre[vi := After(on[vi], nframes)];
      }
      assert on[..NVoices] == on;
      RenderAllFits(on, |sampleData|, nframes);
    }

    /** The last event loop of `process`: each NoteOff releases its slot. */
    method HandleNoteOffs(events: seq<MidiEvent>)
      requires Playable()
      modifies voices
      ensures Playable()
      ensures voices[..] == ApplyNoteOffs(old(voices[..]), events)
    {
      for e := 0 to |events|
        invariant voices[..] == ApplyNoteOffs(old(voices[..]), events[..e])
      {
        assert events[..e + 1][..e] == events[..e];
        if events[e].NoteOff? {
          var slot := Slot(events[e].key);
          var v := voices[slot];
          voices[slot] := v.(trigger := false, playProgress := if v.mode.stop then -1 else v.playProgress);
        }
      }
      assert events[..|events|] == events;
    }

    /** `Sampler::load()` given the file's samples: keep at most
        `maxSampleSize` of them and set every voice's in and out bounds to
        the file's size. */
    method Load(file: seq<int>)
      requires Valid()
      modifies this, voices
      ensures Valid() && voices == old(voices)
      ensures maxSampleSize == old(maxSampleSize) && currentVoiceIdx == old(currentVoiceIdx)
      ensures sampleData == file[..Min(maxSampleSize, |file|)]
      ensures forall i :: 0 <= i < NVoices ==> voices[i] == old(voices[i]).(inMax := |file|, outMax := |file|)
    {
      var rs := Min(maxSampleSize, |file|);
      sampleData := file[..rs];
      for i := 0 to NVoices
        invariant voices == old(voices) && voices.Length == NVoices
        invariant maxSampleSize == old(maxSampleSize) && currentVoiceIdx == old(currentVoiceIdx)
        invariant sampleData == file[..rs]
        invariant forall j :: 0 <= j < i ==> voices[j] == old(voices[j]).(inMax := |file|, outMax := |file|)
        invariant forall j :: i <= j < NVoices ==> voices[j] == old(voices[j])
      {
        voices[i] := voices[i].(inMax := |file|, outMax := |file|);
      }
    }
  }
}
