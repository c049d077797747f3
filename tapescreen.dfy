/** Key and encoder handling of the tape deck's screen (`TapeScreen::keypress`,
    `keyrelease` and `rotary`).

    The screen keeps one flag of its own, `stopRecOnRelease`, and otherwise
    acts on the tape deck: it sets the selected track and the looping flag and
    invokes transport operations. The bodies of those operations are not part
    of this model, so the deck records each invocation in an operation log. */
module TapeScreen {

  /** The keys the screen distinguishes; every other key is `OtherKey`. */
  datatype Key =
    | Rec | Play
    | Track1 | Track2 | Track3 | Track4
    | Left | Right
    | Loop | LoopIn | LoopOut
    | Cut | Lift | Drop
    | OtherKey(code: nat)

  datatype Rotary = Blue | Green | White | Red

  datatype RotaryEvent = RotaryEvent(rotary: Rotary, clicks: int)

  /** The state of the keypad the handlers consult: whether SHIFT and REC
      are held down. */
  datatype Held = Held(shift: bool, rec: bool)

  /** An invocation of a tape-deck operation. */
  datatype DeckOp =
    | StartRecord | StopRecord
    | Spool(speed: int) | StopTransport
    | GoToBarRel(bars: int)
    | LoopInHere | GoToLoopIn | LoopOutHere | GoToLoopOut
    | CutSlices(track: int, position: int)
    | StepBaseSpeed(clicks: int) | StepGain(clicks: int)

  /** The screen's flag together with the deck state it writes. */
  datatype Screen = Screen(stopRecOnRelease: bool, track: int, looping: bool, log: seq<DeckOp>)

  /** The outcome of a key handler: the new state and whether the key was
      consumed. */
  datatype Handled = Handled(screen: Screen, consumed: bool)

  function Invoke(s: Screen, op: DeckOp): Screen {
    s.(log := s.log + [op])
  }

  /** `after` is `before` with at most one more operation invoked. */
  predicate AtMostOneOp(before: seq<DeckOp>, after: seq<DeckOp>) {
    after == before || (|after| == |before| + 1 && after[..|before|] == before)
  }

  /** `keypress(key)`. `tapeOps` is the deck's `doTapeOps()` and `position`
      its `position()`. */
  function KeyPress(s: Screen, key: Key, held: Held, tapeOps: bool, position: int): (r: Handled)
    // The flag is only ever cleared here, by PLAY while REC is held.
    ensures r.screen.stopRecOnRelease != s.stopRecOnRelease ==>
            key == Play && held.rec && s.stopRecOnRelease
    // Only the TRACK keys select a track, and only one of 0..3.
    ensures r.screen.track == s.track || (0 <= r.screen.track <= 3 && key in {Track1, Track2, Track3, Track4})
    ensures AtMostOneOp(s.log, r.screen.log)
  {
    match key
    case Rec => Handled(Invoke(s, StartRecord), true)
    case Play => Handled(if held.rec then s.(stopRecOnRelease := false) else s, false)
    case Track1 => Handled(s.(track := 0), true)
    case Track2 => Handled(s.(track := 1), true)
    case Track3 => Handled(s.(track := 2), true)
    case Track4 => Handled(s.(track := 3), true)
    case Left => Handled(Invoke(s, if held.shift then GoToBarRel(-1) else Spool(-5)), true)
    case Right => Handled(Invoke(s, if held.shift then GoToBarRel(1) else Spool(5)), true)
    case Loop => Handled(s.(looping := !s.looping), true)
    case LoopIn => Handled(Invoke(s, if held.shift then LoopInHere else GoToLoopIn), true)
    case LoopOut => Handled(Invoke(s, if held.shift then LoopOutHere else GoToLoopOut), true)
    case Cut =>
      // With SHIFT held the key is reserved for gluing, which does nothing yet.
      Handled(if tapeOps && !held.shift then Invoke(s, CutSlices(s.track, position)) else s, true)
    // LIFT and DROP have no action yet; without tape operations both fall
    // through to the default case.
    case Lift => Handled(s, tapeOps)
    case Drop => Handled(s, tapeOps)
    case OtherKey(_) => Handled(s, false)
  }

  /** `keyrelease(key)`. */
  function KeyRelease(s: Screen, key: Key): (r: Handled)
    // The flag is only ever set here, by the REC release that consumed a
    // deferral, and it is always set after REC is released.
    ensures r.screen.stopRecOnRelease != s.stopRecOnRelease ==> key == Rec && !s.stopRecOnRelease
    ensures key == Rec ==> r.screen.stopRecOnRelease
    // Releasing a key never changes the selected track or the looping flag.
    ensures r.screen.track == s.track && r.screen.looping == s.looping
    ensures AtMostOneOp(s.log, r.screen.log)
  {
    match key
    case Rec =>
      if s.stopRecOnRelease then Handled(Invoke(s, StopRecord), true)
      else Handled(s.(stopRecOnRelease := true), true)
    case Left => Handled(Invoke(s, StopTransport), true)
    case Right => Handled(Invoke(s, StopTransport), true)
    case _ => Handled(s, false)
  }

  /** `rotary(e)`. */
  function Turn(s: Screen, e: RotaryEvent): (r: Screen)
    // An encoder turn touches only the log of deck operations.
    ensures r.(log := s.log) == s
    ensures AtMostOneOp(s.log, r.log)
  {
    match e.rotary
    case Blue => s
    case Green => s
    case White => Invoke(s, StepBaseSpeed(e.clicks))
    case Red => Invoke(s, StepGain(e.clicks))
  }

  // ---------------------------------------------------------------------
  // Properties of the handlers

  /** Pressing REC starts recording and is consumed; nothing else changes. */
  lemma RecPressStartsRecording(s: Screen, held: Held, tapeOps: bool, position: int)
    ensures KeyPress(s, Rec, held, tapeOps, position) == Handled(s.(log := s.log + [StartRecord]), true)
  {
  }

  /** PLAY is never consumed and invokes nothing; pressed while REC is held
      it defers the punch-out by clearing the flag. */
  lemma PlayDefersPunchOut(s: Screen, held: Held, tapeOps: bool, position: int)
    ensures !KeyPress(s, Play, held, tapeOps, position).consumed
    ensures KeyPress(s, Play, held, tapeOps, position).screen.log == s.log
    ensures KeyPress(s, Play, held, tapeOps, position).screen.stopRecOnRelease ==
            (s.stopRecOnRelease && !held.rec)
  {
  }

  /** Releasing REC stops recording exactly when the flag is set; otherwise
      it re-arms the flag. The key is consumed either way, and the flag is
      always set afterwards. */
  lemma RecReleaseStopsIffArmed(s: Screen)
    ensures KeyRelease(s, Rec).consumed
    ensures KeyRelease(s, Rec).screen.stopRecOnRelease
    ensures KeyRelease(s, Rec).screen.log == if s.stopRecOnRelease then s.log + [StopRecord] else s.log
  {
  }

  /** Deferred punch-out: REC pressed, PLAY pressed while REC is held, REC
      released. Recording starts and is not stopped on the release, and the
      flag ends up set again, so the next REC release stops recording. */
  lemma DeferredPunchOut(s: Screen, shift: bool, tapeOps: bool, position: int)
    requires s.stopRecOnRelease
    ensures var s1 := KeyPress(s, Rec, Held(shift, false), tapeOps, position).screen;
            var s2 := KeyPress(s1, Play, Held(shift, true), tapeOps, position).screen;
            var s3 := KeyRelease(s2, Rec).screen;
            s3.log == s.log + [StartRecord] && s3.stopRecOnRelease &&
            KeyRelease(s3, Rec).screen.log == s.log + [StartRecord, StopRecord]
  {
    var s1 := KeyPress(s, Rec, Held(shift, false), tapeOps, position).screen;
    var s2 := KeyPress(s1, Play, Held(shift, true), tapeOps, position).screen;
    var s3 := KeyRelease(s2, Rec).screen;
    assert s3.log == s.log + [StartRecord];
    assert s3.log + [StopRecord] == s.log + [StartRecord, StopRecord];
  }

  /** TRACK_n selects track n - 1 and changes nothing else. */
  lemma TrackSelection(s: Screen, held: Held, tapeOps: bool, position: int)
    ensures KeyPress(s, Track1, held, tapeOps, position).screen == s.(track := 0)
    ensures KeyPress(s, Track2, held, tapeOps, position).screen == s.(track := 1)
    ensures KeyPress(s, Track3, held, tapeOps, position).screen == s.(track := 2)
    ensures KeyPress(s, Track4, held, tapeOps, position).screen == s.(track := 3)
  {
  }

  /** LOOP toggles the looping flag; pressing it twice restores the state. */
  lemma LoopTwiceRestores(s: Screen, held: Held, tapeOps: bool, position: int)
    ensures KeyPress(s, Loop, held, tapeOps, position).screen.looping == !s.looping
    ensures KeyPress(KeyPress(s, Loop, held, tapeOps, position).screen, Loop, held, tapeOps, position).screen == s
  {
  }

  /** LEFT and RIGHT spool by -5 and 5, or move by a bar with SHIFT held,
      and are consumed. */
  lemma LeftRightSpool(s: Screen, held: Held, tapeOps: bool, position: int)
    ensures KeyPress(s, Left, held, tapeOps, position) ==
            Handled(s.(log := s.log + [if held.shift then GoToBarRel(-1) else Spool(-5)]), true)
    ensures KeyPress(s, Right, held, tapeOps, position) ==
            Handled(s.(log := s.log + [if held.shift then GoToBarRel(1) else Spool(5)]), true)
  {
  }

  /** Releasing LEFT or RIGHT stops the transport and is consumed. */
  lemma LeftRightReleaseStops(s: Screen)
    ensures KeyRelease(s, Left) == Handled(s.(log := s.log + [StopTransport]), true)
    ensures KeyRelease(s, Right) == Handled(s.(log := s.log + [StopTransport]), true)
  {
  }

  /** LOOP_IN and LOOP_OUT set the loop point at the current position with
      SHIFT held and otherwise jump to it; both are consumed. */
  lemma LoopPoints(s: Screen, held: Held, tapeOps: bool, position: int)
    ensures KeyPress(s, LoopIn, held, tapeOps, position) ==
            Handled(s.(log := s.log + [if held.shift then LoopInHere else GoToLoopIn]), true)
    ensures KeyPress(s, LoopOut, held, tapeOps, position) ==
            Handled(s.(log := s.log + [if held.shift then LoopOutHere else GoToLoopOut]), true)
  {
  }

  /** CUT is always consumed and cuts the selected track's slices at the
      current position only when tape operations are allowed and SHIFT is
      up. LIFT and DROP change nothing and are consumed exactly when tape
      operations are allowed. */
  lemma CutLiftDrop(s: Screen, held: Held, tapeOps: bool, position: int)
    ensures KeyPress(s, Cut, held, tapeOps, position).consumed
    ensures KeyPress(s, Cut, held, tapeOps, position).screen.log ==
            if tapeOps && !held.shift then s.log + [CutSlices(s.track, position)] else s.log
    ensures KeyPress(s, Lift, held, tapeOps, position) == Handled(s, tapeOps)
    ensures KeyPress(s, Drop, held, tapeOps, position) == Handled(s, tapeOps)
  {
  }

  /** A key the press handler does not know changes nothing and is not
      consumed. */
  lemma UnhandledPress(s: Screen, code: nat, held: Held, tapeOps: bool, position: int)
    ensures KeyPress(s, OtherKey(code), held, tapeOps, position) == Handled(s, false)
  {
  }

  /** Releasing any key other than REC, LEFT and RIGHT changes nothing and
      is not consumed. */
  lemma UnhandledRelease(s: Screen)
    ensures forall k :: k !in {Rec, Left, Right} ==> KeyRelease(s, k) == Handled(s, false)
  {
  }

  /** The WHITE encoder steps the base speed and the RED one the gain by the
      clicks turned; BLUE and GREEN do nothing. */
  lemma RotarySteps(s: Screen, clicks: int)
    ensures Turn(s, RotaryEvent(White, clicks)) == s.(log := s.log + [StepBaseSpeed(clicks)])
    ensures Turn(s, RotaryEvent(Red, clicks)) == s.(log := s.log + [StepGain(clicks)])
    ensures Turn(s, RotaryEvent(Blue, clicks)) == s
    ensures Turn(s, RotaryEvent(Green, clicks)) == s
  {
  }

  // ---------------------------------------------------------------------
  // Sequences of events

  /** One event delivered to the screen, with what the handler consults at
      that moment. */
  datatype UiEvent =
    | Press(key: Key, held: Held, tapeOps: bool, position: int)
    | Release(key: Key)
    | Turned(e: RotaryEvent)

  function Step(s: Screen, ev: UiEvent): Screen {
    match ev
    case Press(k, h, t, p) => KeyPress(s, k, h, t, p).screen
    case Release(k) => KeyRelease(s, k).screen
    case Turned(e) => Turn(s, e)
  }

  /** The screen after the events, delivered first to last. */
  function Run(s: Screen, evs: seq<UiEvent>): Screen
    decreases |evs|
  {
    if evs == [] then s else Step(Run(s, evs[..|evs| - 1]), evs[|evs| - 1])
  }

  /** Reference definition of the flag from the events alone: the latest
      event that matters decides it; a PLAY pressed while REC is held
      clears it, a REC release sets it, and with neither it is `initial`. */
  function ArmedAfter(initial: bool, evs: seq<UiEvent>): bool
    decreases |evs|
  {
    if evs == [] then initial
    else
      match evs[|evs| - 1]
      case Press(k, h, _, _) =>
        if k == Play && h.rec then false else ArmedAfter(initial, evs[..|evs| - 1])
      case Release(k) => if k == Rec then true else ArmedAfter(initial, evs[..|evs| - 1])
      case Turned(_) => ArmedAfter(initial, evs[..|evs| - 1])
  }

  /** The screen's flag always agrees with the reference definition: the
      punch-out is deferred exactly when PLAY was pressed with REC held
      after the last REC release. */
  lemma {:induction false} FlagFollowsEvents(s: Screen, evs: seq<UiEvent>)
    ensures Run(s, evs).stopRecOnRelease == ArmedAfter(s.stopRecOnRelease, evs)
    decreases |evs|
  {
    if evs != [] {
      FlagFollowsEvents(s, evs[..|evs| - 1]);
      var prev := Run(s, evs[..|evs| - 1]);
      match evs[|evs| - 1]
      case Press(k, h, t, p) =>
        if !(k == Play && h.rec) {
          assert KeyPress(prev, k, h, t, p).screen.stopRecOnRelease == prev.stopRecOnRelease;
        }
      case Release(k) =>
        if k != Rec {
          assert KeyRelease(prev, k).screen.stopRecOnRelease == prev.stopRecOnRelease;
        }
      case Turned(e) =>
        assert Turn(prev, e).stopRecOnRelease == prev.stopRecOnRelease;
    }
  }

  /** A selected track in 0..3 stays in 0..3 whatever events arrive. */
  lemma {:induction false} TrackStaysInRange(s: Screen, evs: seq<UiEvent>)
    requires 0 <= s.track <= 3
    ensures 0 <= Run(s, evs).track <= 3
    decreases |evs|
  {
    if evs != [] {
      TrackStaysInRange(s, evs[..|evs| - 1]);
    }
  }

  /** Operations are only ever appended to the deck's log, at most one per
      event. */
  lemma {:induction false} LogOnlyGrows(s: Screen, evs: seq<UiEvent>)
    ensures |s.log| <= |Run(s, evs).log| <= |s.log| + |evs|
    ensures Run(s, evs).log[..|s.log|] == s.log
    decreases |evs|
  {
    if evs != [] {
      LogOnlyGrows(s, evs[..|evs| - 1]);
      var prev := Run(s, evs[..|evs| - 1]);
      var next := Run(s, evs).log;
      assert AtMostOneOp(prev.log, next);
      assert next[..|prev.log|] == prev.log;
      assert next[..|s.log|] == next[..|prev.log|][..|s.log|];
    }
  }

  // ---------------------------------------------------------------------
  // The screen and the deck it controls

  /** The parts of the tape deck the screen touches: `state.track`,
      `state.looping`, and the log of operations invoked on it. */
  class Tapedeck {
    var track: int
    var looping: bool
    var log: seq<DeckOp>

    constructor ()
      ensures track == 0 && !looping && log == []
    {
      track, looping, log := 0, false, [];
    }

    method Invoke(op: DeckOp)
      modifies this
      ensures log == old(log) + [op] && track == old(track) && looping == old(looping)
    {
      log := log + [op];
    }
  }

  class TapeScreen {
    var stopRecOnRelease: bool
    const deck: Tapedeck

    constructor (deck: Tapedeck)
      ensures this.deck == deck && stopRecOnRelease
    {
      this.deck := deck;
      stopRecOnRelease := true;
    }

    function State(): Screen
      reads this, deck
    {
      Screen(stopRecOnRelease, deck.track, deck.looping, deck.log)
    }

    method Keypress(key: Key, held: Held, tapeOps: bool, position: int) returns (consumed: bool)
      modifies this, deck
      ensures Handled(State(), consumed) == KeyPress(old(State()), key, held, tapeOps, position)
    {
      match key {
        case Rec =>
          deck.Invoke(StartRecord);
          return true;
        case Play =>
          if held.rec {
            stopRecOnRelease := false;
          }
          return false;
        case Track1 =>
          deck.track := 0;
          return true;
        case Track2 =>
          deck.track := 1;
          return true;
        case Track3 =>
          deck.track := 2;
          return true;
        case Track4 =>
          deck.track := 3;
          return true;
        case Left =>
          if held.shift { deck.Invoke(GoToBarRel(-1)); } else { deck.Invoke(Spool(-5)); }
          return true;
        case Right =>
          if held.shift { deck.Invoke(GoToBarRel(1)); } else { deck.Invoke(Spool(5)); }
          return true;
        case Loop =>
          deck.looping := !deck.looping;
          return true;
        case LoopIn =>
          if held.shift { deck.Invoke(LoopInHere); } else { deck.Invoke(GoToLoopIn); }
          return true;
        case LoopOut =>
          if held.shift { deck.Invoke(LoopOutHere); } else { deck.Invoke(GoToLoopOut); }
          return true;
        case Cut =>
          if tapeOps && !held.shift {
            deck.Invoke(CutSlices(deck.track, position));
          }
          return true;
        case Lift =>
          return tapeOps;
        case Drop =>
          return tapeOps;
        case OtherKey(_) =>
          return false;
      }
    }

    method Keyrelease(key: Key) returns (consumed: bool)
      modifies this, deck
      ensures Handled(State(), consumed) == KeyRelease(old(State()), key)
    {
      match key {
        case Rec =>
          if stopRecOnRelease {
            deck.Invoke(StopRecord);
          } else {
            stopRecOnRelease := true;
          }
          return true;
        case Left =>
          deck.Invoke(StopTransport);
          return true;
        case Right =>
          deck.Invoke(StopTransport);
          return true;
        case _ =>
          return false;
      }
    }

    method RotaryTurned(e: RotaryEvent)
      modifies deck
      ensures State() == Turn(old(State()), e)
    {
      match e.rotary {
        case Blue =>
        case Green =>
        case White => deck.Invoke(StepBaseSpeed(e.clicks));
        case Red => deck.Invoke(StepGain(e.clicks));
      }
    }
  }
}
