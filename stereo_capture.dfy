/*
 * A model of the grab loop of the stereo acquisition program
 * (StereoBasler_LightCrafter.cpp, main): the four counters that drive a
 * capture, the frame pairs it saves, the keys that start and delete
 * captures, and the end of the loop.
 *
 * The cameras, OpenCV and the file system are not modelled: a loop
 * iteration takes as input whether both cameras delivered a frame, the key
 * read by waitKey and the result LightCrafterFlash returns, and what the
 * loop does to the outside world is recorded as a list of events.
 */
module StereoCapture {
  import opened LcFlash

  // ---------------------------------------------------------------------------
  // Constants of main.

  const Root: string := "F:\\StereoBasler_LightCrafter\\acquisition\\"

  /** The flash images projected in one capture. */
  const Sequence: string := "0-1-2"

  const ExposurePeriod := 150000
  const FramePeriod := 150000
  const Repeat := 0

  /** The number of frame pairs a capture runs for: the sequence plus three without fringes. */
  function FramesPerCapture(sequence: string): (n: int)
    ensures n >= 4
  {
    CountDashes(sequence) + 1 + 3
  }

  /** n - 3 is the number of images LightCrafterFlash projects from the same sequence. */
  lemma FramesPerCaptureMatchesProjection(sequence: string)
    requires sequence != [] && sequence[|sequence| - 1] != '-'
    ensures FramesPerCapture(sequence) == |GetlineTokens(sequence)| + 3
  {
    GetlineTokensCount(sequence);
  }

  lemma SixFramesPerCapture()
    ensures FramesPerCapture(Sequence) == 6
  {
    assert Sequence[1..] == "-1-2" && "-1-2"[1..] == "1-2" && "1-2"[1..] == "-2" && "-2"[1..] == "2" && "2"[1..] == "";
    assert CountDashes("2") == 0;
    assert CountDashes("-2") == 1;
    assert CountDashes("1-2") == 1;
    assert CountDashes("-1-2") == 2;
  }

  /** waitKey's result as the char it is stored in (signed on the target). */
  type SignedChar = k: int | -128 <= k < 128

  const Esc: SignedChar := 27
  const KeyCapture: SignedChar := 'c' as int
  const KeyDelete: SignedChar := 'd' as int

  // ---------------------------------------------------------------------------
  // File names.

  function DigitChar(d: nat): char
    requires d < 10
  {
    (0x30 + d) as char
  }

  function NatString(i: nat): string
  {
    if i < 10 then [DigitChar(i)] else NatString(i / 10) + [DigitChar(i % 10)]
  }

  /** std::to_string for int. */
  function DecimalString(i: int): string
  {
    if i < 0 then "-" + NatString(-i) else NatString(i)
  }

  /** A file name root + dir + capture + "_" + index + ".bmp". */
  function ImageName(dir: string, capture: int, index: int): string
  {
    Root + dir + NameSuffix(capture, index)
  }

  function NameSuffix(capture: int, index: int): string
  {
    DecimalString(capture) + "_" + DecimalString(index) + ".bmp"
  }

  /** Where a left frame of a capture is saved, and removed from. */
  function LeftImage(capture: int, index: int): string
  {
    ImageName("L\\left", capture, index)
  }

  /** Where a right frame of a capture is saved. */
  function RightImage(capture: int, index: int): string
  {
    ImageName("R\\right", capture, index)
  }

  /** The name the delete key removes for a right frame, as written: "R\left", not "R\right". */
  function RightImageDeletedAsWritten(capture: int, index: int): string
  {
    ImageName("R\\left", capture, index)
  }

  lemma MiddleAt<T>(a: seq<T>, b: seq<T>, c: seq<T>, i: nat)
    requires i < |b|
    ensures |a| + i < |a + b + c| && (a + b + c)[|a| + i] == b[i]
  {
  }

  /** Character i of the directory part of a name. */
  lemma ImageNameAt(dir: string, capture: int, index: int, i: nat)
    requires i < |dir|
    ensures |Root| + i < |ImageName(dir, capture, index)| && ImageName(dir, capture, index)[|Root| + i] == dir[i]
  {
    MiddleAt(Root, dir, NameSuffix(capture, index), i);
  }

  /** No right frame saved by any capture is ever the one the delete key removes. */
  lemma RightDeleteMissesEveryRightImage(capture: int, index: int, capture': int, index': int)
    ensures RightImageDeletedAsWritten(capture, index) != RightImage(capture', index')
  {
    ImageNameAt("R\\left", capture, index, 2);
    ImageNameAt("R\\right", capture', index', 2);
  }

  /** Left and right frames never share a name. */
  lemma LeftAndRightImagesDiffer(capture: int, index: int, capture': int, index': int)
    ensures LeftImage(capture, index) != RightImage(capture', index')
    ensures LeftImage(capture, index) != RightImageDeletedAsWritten(capture', index')
  {
    ImageNameAt("L\\left", capture, index, 0);
    ImageNameAt("R\\right", capture', index', 0);
    ImageNameAt("R\\left", capture', index', 0);
  }

  // ---------------------------------------------------------------------------
  // Events.

  datatype Event =
    | Saved(file: string)
    | Removed(file: string)
    | TriggerMode(camera: nat, on: bool)
    | Flash(exposurePeriod: int, framePeriod: int, repeat: int, sequence: string)

  /** imwrite of the left and right frames numbered 0 .. count - 1 of a capture. */
  function Saves(capture: int, count: nat): (r: seq<Event>)
    ensures |r| == 2 * count
  {
    if count == 0 then []
    else Saves(capture, count - 1) + [Saved(LeftImage(capture, count - 1)), Saved(RightImage(capture, count - 1))]
  }

  /** remove of the frames numbered first .. first + count - 1, as written. */
  function DeletesAsWritten(capture: int, first: int, count: nat): (r: seq<Event>)
    ensures |r| == 2 * count
  {
    if count == 0 then []
    else
      DeletesAsWritten(capture, first, count - 1) +
      [Removed(LeftImage(capture, first + count - 1)), Removed(RightImageDeletedAsWritten(capture, first + count - 1))]
  }

  /** remove of the frames numbered first .. first + count - 1, with the right frames' real names. */
  function Deletes(capture: int, first: int, count: nat): (r: seq<Event>)
    ensures |r| == 2 * count
  {
    if count == 0 then []
    else
      Deletes(capture, first, count - 1) +
      [Removed(LeftImage(capture, first + count - 1)), Removed(RightImage(capture, first + count - 1))]
  }

  /** The iterations of the delete loop: i < n - 3. */
  function DeleteCount(n: int): nat
  {
    if n > 3 then n - 3 else 0
  }

  /** Deleting a capture's frames removes exactly the files its frames were saved to. */
  lemma {:induction false} DeletesRemoveWhatWasSaved(capture: int, count: nat)
    ensures forall f :: Removed(f) in Deletes(capture, 0, count) <==> Saved(f) in Saves(capture, count)
  {
    if count > 0 {
      DeletesRemoveWhatWasSaved(capture, count - 1);
    }
  }

  /**
   * As written, the delete key removes the saved left frames of the
   * capture but none of its saved right frames.
   */
  lemma {:induction false} DeletesAsWrittenKeepRightImages(capture: int, count: nat)
    ensures forall k | 0 <= k < count ::
      Saved(LeftImage(capture, k)) in Saves(capture, count) && Removed(LeftImage(capture, k)) in DeletesAsWritten(capture, 0, count)
    ensures forall k | 0 <= k < count ::
      Saved(RightImage(capture, k)) in Saves(capture, count) && Removed(RightImage(capture, k)) !in DeletesAsWritten(capture, 0, count)
  {
    forall k | 0 <= k < count
      ensures Removed(LeftImage(capture, k)) in DeletesAsWritten(capture, 0, count)
      ensures Saved(LeftImage(capture, k)) in Saves(capture, count)
      ensures Saved(RightImage(capture, k)) in Saves(capture, count)
      ensures Removed(RightImage(capture, k)) !in DeletesAsWritten(capture, 0, count)
    {
      DeletesAsWrittenRemoveLeftImage(capture, count, k);
      SavesHoldFrames(capture, count, k);
      DeletesAsWrittenMissRightImage(capture, 0, count, capture, k);
    }
  }

  lemma {:induction false} DeletesAsWrittenRemoveLeftImage(capture: int, count: nat, k: nat)
    requires k < count
    ensures Removed(LeftImage(capture, k)) in DeletesAsWritten(capture, 0, count)
  {
    if k < count - 1 {
      DeletesAsWrittenRemoveLeftImage(capture, count - 1, k);
    }
  }

  lemma {:induction false} SavesHoldFrames(capture: int, count: nat, k: nat)
    requires k < count
    ensures Saved(LeftImage(capture, k)) in Saves(capture, count)
    ensures Saved(RightImage(capture, k)) in Saves(capture, count)
  {
    var last := [Saved(LeftImage(capture, count - 1)), Saved(RightImage(capture, count - 1))];
    assert Saves(capture, count) == Saves(capture, count - 1) + last;
    if k < count - 1 {
      SavesHoldFrames(capture, count - 1, k);
    } else {
      assert last[0] == Saved(LeftImage(capture, k)) && last[1] == Saved(RightImage(capture, k));
    }
  }

  lemma {:induction false} DeletesAsWrittenMissRightImage(capture: int, first: int, count: nat, capture': int, index': int)
    ensures Removed(RightImage(capture', index')) !in DeletesAsWritten(capture, first, count)
  {
    if count > 0 {
      DeletesAsWrittenMissRightImage(capture, first, count - 1, capture', index');
      LeftAndRightImagesDiffer(capture, first + count - 1, capture', index');
      RightDeleteMissesEveryRightImage(capture, first + count - 1, capture', index');
    }
  }

  // ---------------------------------------------------------------------------
  // The counters.

  datatype Counters = Counters(capture: bool, cntImTrigg: int, cntImagesNum: int, cntCapt: int)

  const Initial := Counters(false, -1, -1, -1)

  /** Frame pairs saved once the trigger counter is at t: those at 1 .. n - 3. */
  function SavedSoFar(t: int, n: int): int
  {
    if t <= 0 then 0 else if t <= n - 3 then t else n - 3
  }

  /**
   * What holds of the counters between iterations: cntCapt numbers the
   * last capture (-1 for none); when idle both per-capture counters are -1;
   * while capturing cntImTrigg counts the frames of the capture so far and
   * cntImagesNum is the index of the last frame pair saved.
   */
  predicate CountersOk(s: Counters, n: int)
  {
    n >= 4 && s.cntCapt >= -1 &&
    (!s.capture ==> s.cntImTrigg == -1 && s.cntImagesNum == -1) &&
    (s.capture ==> s.cntCapt >= 0 && -1 <= s.cntImTrigg <= n - 2 && s.cntImagesNum == SavedSoFar(s.cntImTrigg, n) - 1)
  }

  datatype Step = Step(state: Counters, events: seq<Event>)

  /**
   * The capture block after a frame pair is grabbed: while capturing, count
   * the frame; save frames 1 .. n - 3; at frame n - 1 end the capture and
   * turn both cameras' trigger mode off.
   */
  function OnGrab(s: Counters, n: int): (r: Step)
    ensures CountersOk(s, n) ==> CountersOk(r.state, n)
    ensures r.state.cntCapt == s.cntCapt
    ensures !s.capture ==> r == Step(s, [])
  {
    if !s.capture then Step(s, [])
    else
      var t := s.cntImTrigg + 1;
      if 0 < t < n - 2 then
        var k := s.cntImagesNum + 1;
        Step(s.(cntImTrigg := t, cntImagesNum := k), [Saved(LeftImage(s.cntCapt, k)), Saved(RightImage(s.cntCapt, k))])
      else if t == n - 1 then
        Step(s.(capture := false, cntImagesNum := -1, cntImTrigg := -1), [TriggerMode(0, false), TriggerMode(1, false)])
      else
        Step(s.(cntImTrigg := t), [])
  }

  /** The frames grabbed one after another. */
  function Grabs(s: Counters, n: int, count: nat): Step
  {
    if count == 0 then Step(s, [])
    else
      var before := Grabs(s, n, count - 1);
      var after := OnGrab(before.state, n);
      Step(after.state, before.events + after.events)
  }

  /** Part of a capture: after j < n frames it is still running and has saved SavedSoFar(j - 1) pairs. */
  lemma {:induction false} CaptureInProgress(capture: int, n: int, j: nat)
    requires capture >= 0 && n >= 4 && j < n
    ensures Grabs(Counters(true, -1, -1, capture), n, j) ==
      Step(Counters(true, j - 1, SavedSoFar(j - 1, n) - 1, capture), Saves(capture, SavedSoFar(j - 1, n)))
  {
    if j > 0 {
      CaptureInProgress(capture, n, j - 1);
    }
  }

  /**
   * A capture, started by the capture key, consumes exactly n frame pairs:
   * it saves the pairs 0 .. n - 4 (n - 3 of them), then ends, idle again,
   * with both trigger modes off.
   */
  lemma CaptureCycle(capture: int, n: int)
    requires capture >= 0 && n >= 4
    ensures Grabs(Counters(true, -1, -1, capture), n, n) ==
      Step(Counters(false, -1, -1, capture), Saves(capture, n - 3) + [TriggerMode(0, false), TriggerMode(1, false)])
  {
    CaptureInProgress(capture, n, n - 1);
  }

  datatype Exit = Continue | Quit | Failed

  datatype KeyStep = KeyStep(state: Counters, events: seq<Event>, exit: Exit)

  /**
   * The key handling after a frame pair: Esc ends the loop; the capture key
   * starts a capture when idle (next capture number, trigger modes on,
   * projector flashed, and a failed flash ends main with -1); the delete
   * key, when idle and some capture exists, removes that capture's frames,
   * the right ones under the name the program uses, and steps the capture
   * number back.
   */
  function OnKey(s: Counters, n: int, key: SignedChar, flashResult: int): (r: KeyStep)
    ensures CountersOk(s, n) ==> CountersOk(r.state, n)
    ensures key == Esc ==> r == KeyStep(s, [], Quit)
    ensures key == KeyCapture && !s.capture ==>
      r.state == s.(cntCapt := s.cntCapt + 1, capture := true) &&
      r.events == [TriggerMode(0, true), TriggerMode(1, true), Flash(ExposurePeriod, FramePeriod, Repeat, Sequence)]
    ensures key == KeyCapture && s.capture ==> r == KeyStep(s, [], Continue)
    ensures CountersOk(s, n) && key == KeyDelete && !s.capture && s.cntCapt > -1 ==>
      r.state == s.(cntCapt := s.cntCapt - 1) && r.exit == Continue &&
      r.events == DeletesAsWritten(s.cntCapt, 0, n - 3)
    ensures key == KeyDelete && (s.capture || s.cntCapt == -1) ==> r == KeyStep(s, [], Continue)
    ensures key != Esc && key != KeyCapture && key != KeyDelete ==> r == KeyStep(s, [], Continue)
    ensures r.exit == Failed <==> key == KeyCapture && !s.capture && flashResult < 0
  {
    if key == Esc then KeyStep(s, [], Quit)
    else if key == KeyCapture && !s.capture then
      KeyStep(s.(cntCapt := s.cntCapt + 1, capture := true),
              [TriggerMode(0, true), TriggerMode(1, true), Flash(ExposurePeriod, FramePeriod, Repeat, Sequence)],
              if flashResult < 0 then Failed else Continue)
    else if key == KeyDelete && s.cntCapt > -1 && !s.capture then
      KeyStep(s.(cntCapt := s.cntCapt - 1, cntImagesNum := -1),
              DeletesAsWritten(s.cntCapt, s.cntImagesNum + 1, DeleteCount(n)), Continue)
    else KeyStep(s, [], Continue)
  }

  /**
   * The key handling with the delete key removing the right frames under
   * the name they were saved with; every other key is handled as OnKey does.
   */
  function OnKeyIntended(s: Counters, n: int, key: SignedChar, flashResult: int): (r: KeyStep)
    ensures r.state == OnKey(s, n, key, flashResult).state && r.exit == OnKey(s, n, key, flashResult).exit
    ensures CountersOk(s, n) && key == KeyDelete && !s.capture && s.cntCapt > -1 ==>
      r.events == Deletes(s.cntCapt, 0, n - 3)
    ensures !(key == KeyDelete && !s.capture && s.cntCapt > -1) ==> r == OnKey(s, n, key, flashResult)
  {
    var written := OnKey(s, n, key, flashResult);
    if key == KeyDelete && s.cntCapt > -1 && !s.capture then
      written.(events := Deletes(s.cntCapt, s.cntImagesNum + 1, DeleteCount(n)))
    else written
  }

  /**
   * Capture then delete, as written: from idle with last capture c - 1, the
   * capture key, n frame pairs and the delete key bring the counters back;
   * every left frame the capture saved is removed and every right frame it
   * saved stays on disk.
   */
  lemma CaptureThenDelete(c: int, n: int, flashResult: int)
    requires c >= 0 && n >= 4 && flashResult >= 0
    ensures var start := OnKey(Counters(false, -1, -1, c - 1), n, KeyCapture, flashResult);
      var run := Grabs(start.state, n, n);
      var delete := OnKey(run.state, n, KeyDelete, flashResult);
      start.exit == Continue && delete.exit == Continue &&
      delete.state == Counters(false, -1, -1, c - 1) &&
      (forall k | 0 <= k < n - 3 ::
        Saved(LeftImage(c, k)) in run.events && Removed(LeftImage(c, k)) in delete.events) &&
      (forall k | 0 <= k < n - 3 ::
        Saved(RightImage(c, k)) in run.events && Removed(RightImage(c, k)) !in delete.events)
  {
    CaptureCycle(c, n);
    DeletesAsWrittenKeepRightImages(c, n - 3);
  }

  /**
   * Capture then delete with the intended delete: the counters come back
   * and the files removed are exactly the files saved.
   */
  lemma CaptureThenDeleteIntended(c: int, n: int, flashResult: int)
    requires c >= 0 && n >= 4 && flashResult >= 0
    ensures var start := OnKeyIntended(Counters(false, -1, -1, c - 1), n, KeyCapture, flashResult);
      var run := Grabs(start.state, n, n);
      var delete := OnKeyIntended(run.state, n, KeyDelete, flashResult);
      start.exit == Continue && delete.exit == Continue &&
      delete.state == Counters(false, -1, -1, c - 1) &&
      forall f :: Removed(f) in delete.events <==> Saved(f) in run.events
  {
    CaptureCycle(c, n);
    DeletesRemoveWhatWasSaved(c, n - 3);
  }

  // ---------------------------------------------------------------------------
  // The loop.

  /** One iteration's inputs: both frames grabbed, the key read, LightCrafterFlash's result. */
  datatype Input = Input(grabbed: bool, key: SignedChar, flashResult: int)

  datatype Machine = Machine(counters: Counters, grabbing: bool, exitCode: int, events: seq<Event>)

  /** One iteration of the loop: nothing unless both frames were grabbed, then the capture block and the key. */
  function Iterate(m: Machine, n: int, input: Input): (r: Machine)
    ensures CountersOk(m.counters, n) ==> CountersOk(r.counters, n)
    ensures !input.grabbed ==> r == m
    ensures !r.grabbing ==> input.key == Esc || input.flashResult < 0 || !m.grabbing
  {
    if !m.grabbing || !input.grabbed then m
    else
      var g := OnGrab(m.counters, n);
      var k := OnKey(g.state, n, input.key, input.flashResult);
      Machine(k.state, k.exit == Continue, if k.exit == Failed then -1 else m.exitCode, m.events + g.events + k.events)
  }

  /** The loop over a list of iterations' inputs, until it ends or they run out. */
  function RunInputs(m: Machine, n: int, inputs: seq<Input>): (r: Machine)
    ensures CountersOk(m.counters, n) ==> CountersOk(r.counters, n)
    ensures m.events <= r.events
    decreases |inputs|
  {
    if inputs == [] || !m.grabbing then m
    else RunInputs(Iterate(m, n, inputs[0]), n, inputs[1..])
  }

  class GrabLoop {
    const n: int
    var capture: bool
    var cntImTrigg: int
    var cntImagesNum: int
    var cntCapt: int
    var grabbing: bool
    var exitCode: int
    var events: seq<Event>

    function State(): Counters
      reads this
    {
      Counters(capture, cntImTrigg, cntImagesNum, cntCapt)
    }

    function Snapshot(): Machine
      reads this
    {
      Machine(State(), grabbing, exitCode, events)
    }

    ghost predicate Valid()
      reads this
    {
      n == FramesPerCapture(Sequence) && CountersOk(State(), n)
    }

    constructor ()
      ensures Valid() && Snapshot() == Machine(Initial, true, 0, [])
    {
      n := FramesPerCapture(Sequence);
      capture := false;
      cntImTrigg := -1;
      cntImagesNum := -1;
      cntCapt := -1;
      grabbing := true;
      exitCode := 0;
      events := [];
      SixFramesPerCapture();
    }

    /** The capture block of one iteration. */
    method FramePair()
      requires Valid()
      modifies this
      ensures Valid()
      ensures Snapshot() == old(Snapshot()).(counters := OnGrab(old(State()), n).state,
                                            events := old(events) + OnGrab(old(State()), n).events)
    {
      if capture {
        cntImTrigg := cntImTrigg + 1;
        if cntImTrigg > 0 && cntImTrigg < n - 2 {
          cntImagesNum := cntImagesNum + 1;
          events := events + [Saved(LeftImage(cntCapt, cntImagesNum))];
          events := events + [Saved(RightImage(cntCapt, cntImagesNum))];
        } else if cntImTrigg == n - 1 {
          capture := false;
          cntImagesNum := -1;
          cntImTrigg := -1;
          events := events + [TriggerMode(0, false)];
          events := events + [TriggerMode(1, false)];
        }
      }
    }

    /** The key handling of one iteration. */
    method Key(key: SignedChar, flashResult: int)
      requires Valid()
      modifies this
      ensures Valid()
      ensures var r := OnKey(old(State()), n, key, flashResult);
        Snapshot() == Machine(r.state, old(grabbing) && r.exit == Continue,
                              if r.exit == Failed then -1 else old(exitCode), old(events) + r.events)
    {
      if key == Esc {
        grabbing := false;
      } else if key == KeyCapture && !capture {
        cntCapt := cntCapt + 1;
        capture := true;
        events := events + [TriggerMode(0, true)];
        events := events + [TriggerMode(1, true)];
        events := events + [Flash(ExposurePeriod, FramePeriod, Repeat, Sequence)];
        if flashResult < 0 {
          grabbing := false;
          exitCode := -1;
        }
      } else if key == KeyDelete && cntCapt > -1 && !capture {
        DeleteLastCapture();
      }
    }

    /** The delete key's branch: remove the last capture's frames and step its number back. */
    method DeleteLastCapture()
      requires Valid() && !capture && cntCapt > -1
      modifies this
      ensures Valid()
      ensures Snapshot() == old(Snapshot()).(counters := old(State()).(cntCapt := old(cntCapt) - 1),
                                            events := old(events) + DeletesAsWritten(old(cntCapt), 0, DeleteCount(n)))
    {
      for i := 0 to DeleteCount(n)
        invariant cntImagesNum == i - 1
        invariant events == old(events) + DeletesAsWritten(cntCapt, 0, i)
        invariant capture == old(capture) && cntImTrigg == old(cntImTrigg) && cntCapt == old(cntCapt)
        invariant grabbing == old(grabbing) && exitCode == old(exitCode)
      {
        cntImagesNum := cntImagesNum + 1;
        events := events + [Removed(LeftImage(cntCapt, cntImagesNum))];
        events := events + [Removed(RightImageDeletedAsWritten(cntCapt, cntImagesNum))];
      }
      cntCapt := cntCapt - 1;
      cntImagesNum := -1;
    }

    /** One iteration of the while loop, once the cameras have delivered their results. */
    method Iteration(input: Input)
      requires Valid() && grabbing
      modifies this
      ensures Valid()
      ensures Snapshot() == Iterate(old(Snapshot()), n, input)
    {
      if input.grabbed {
        FramePair();
        Key(input.key, input.flashResult);
      }
    }

    /** The while loop over the iterations' inputs, until it ends or they run out. */
    method Run(inputs: seq<Input>)
      requires Valid()
      modifies this
      ensures Valid()
      ensures Snapshot() == RunInputs(old(Snapshot()), n, inputs)
    {
      var i := 0;
      while i < |inputs| && grabbing
        invariant Valid() && i <= |inputs|
        invariant RunInputs(Snapshot(), n, inputs[i..]) == RunInputs(old(Snapshot()), n, inputs)
      {
        assert inputs[i..][1..] == inputs[i + 1..];
        Iteration(inputs[i]);
        i := i + 1;
      }
    }
  }
}
