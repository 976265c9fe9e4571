/** The small pure helpers and caller-side rules of
    src/screens/VideoPlayerScreen.js: time formatting, the camera overlay
    corner and its style, and when the screen asks to start or stop a
    recording or to leave. */
module Player {
  import opened Results
  import opened Text
  import opened Alerts

  // ---------------------------------------------------------------------------
  // formatTime
  // ---------------------------------------------------------------------------

  /** Division truncated toward zero, as JavaScript's `%` pairs with. */
  function TruncDiv(a: int, b: int): int
    requires b > 0
  {
    if a >= 0 then a / b else -((-a) / b)
  }

  /** JavaScript's `%`: the remainder takes the sign of the dividend. */
  function JsRem(a: int, b: int): (r: int)
    requires b > 0
    ensures a >= 0 ==> 0 <= r < b
    ensures a < 0 ==> -b < r <= 0
    ensures a == TruncDiv(a, b) * b + r
  {
    if a >= 0 then a % b else -((-a) % b)
  }

  /** `formatTime(t)` on integer seconds: floored minutes, a colon, and the
      JavaScript remainder padded to two characters. */
  function FormatTime(t: int): string {
    var minutes := t / 60;   // Euclidean division is the floor for a positive divisor
    var seconds := JsRem(t, 60);
    IntToString(minutes) + ":" + PadStart2(IntToString(seconds))
  }

  /** Reads back `m:ss` with `ss` below 60. */
  function ParseTime(s: string): (t: Option<int>)
    ensures t.Some? ==> |s| >= 4 && s[|s| - 3] == ':' && t.value >= 0
  {
    if |s| >= 4 && s[|s| - 3] == ':' && AllDigits(s[..|s| - 3]) && AllDigits(s[|s| - 2..])
       && DigitsValue(s[|s| - 2..]) < 60
    then
      var minutes := DigitsValue(s[..|s| - 3]);
      var seconds := DigitsValue(s[|s| - 2..]);
      Some(60 * minutes + seconds)
    else None
  }

  /** For a non-negative time the display is minutes, a colon and two
      digits below 60, and it reads back as the same time. */
  lemma FormatTimeRoundTrip(t: int)
    requires t >= 0
    ensures var s := FormatTime(t);
      && |s| >= 4 && s[..|s| - 3] == NatToDecimal(t / 60) && s[|s| - 3] == ':'
      && ParseTime(s) == Some(t)
  {
    FormatTimeShape(t);
    MinutesAndSeconds(t);
    TwoDigits(t % 60);
    DecimalRoundTrip(t / 60);
    ParseBack(FormatTime(t), NatToDecimal(t / 60), PadStart2(NatToDecimal(t % 60)), t);
  }

  lemma MinutesAndSeconds(t: nat)
    ensures 60 * (t / 60) + t % 60 == t && t % 60 < 60
  {
  }

  /** A string joined from a minutes numeral and two seconds digits reads
      back as the time they denote. */
  lemma ParseBack(s: string, mm: string, ss: string, t: int)
    requires |mm| >= 1 && AllDigits(mm) && |ss| == 2 && AllDigits(ss)
    requires DigitsValue(ss) < 60 && 60 * DigitsValue(mm) + DigitsValue(ss) == t
    requires s == mm + ":" + ss
    ensures |s| >= 4 && s[..|s| - 3] == mm && s[|s| - 3] == ':' && ParseTime(s) == Some(t)
  {
    ParseJoined(mm, ss);
  }

  lemma FormatTimeShape(t: int)
    requires t >= 0
    ensures FormatTime(t) == NatToDecimal(t / 60) + ":" + PadStart2(NatToDecimal(t % 60))
  {
  }

  lemma ParseJoined(mm: string, ss: string)
    requires |mm| >= 1 && AllDigits(mm)
    requires |ss| == 2 && AllDigits(ss) && DigitsValue(ss) < 60
    ensures var s := mm + ":" + ss;
      |s| >= 4 && s[..|s| - 3] == mm && s[|s| - 3] == ':'
      && ParseTime(s) == Some(60 * DigitsValue(mm) + DigitsValue(ss))
  {
    var s := mm + ":" + ss;
    assert s[..|s| - 3] == mm;
    assert s[|s| - 2..] == ss;
  }

  /** Seconds below 60 pad to two digits that denote them. */
  lemma TwoDigits(sec: nat)
    requires sec < 60
    ensures var ss := PadStart2(NatToDecimal(sec));
      |ss| == 2 && AllDigits(ss) && DigitsValue(ss) == sec
  {
    var d := NatToDecimal(sec);
    var ss := PadStart2(d);
    if sec < 10 {
      assert d == [DigitChar(sec)];
      assert ss == ['0', DigitChar(sec)];
      assert ss[..1] == ['0'];
      assert DigitsValue(['0']) == 0 by {
        assert ['0'][..0] == [];
      }
      assert DigitValue(DigitChar(sec)) == sec;
      assert DigitsValue(ss) == DigitsValue(ss[..1]) * 10 + DigitValue(ss[1]);
    } else {
      assert d == NatToDecimal(sec / 10) + [DigitChar(sec % 10)];
      assert NatToDecimal(sec / 10) == [DigitChar(sec / 10)];
      DecimalRoundTrip(sec);
      assert ss == d;
    }
  }

  /** Different non-negative times never display alike. */
  lemma FormatTimeInjective(t: int, u: int)
    requires t >= 0 && u >= 0 && FormatTime(t) == FormatTime(u)
    ensures t == u
  {
    FormatTimeRoundTrip(t);
    FormatTimeRoundTrip(u);
  }

  /** For a negative time the minutes are the floor, hence negative, and the
      seconds are JavaScript's signed remainder: a '-' and its digits, or
      "00" when the time is a whole number of minutes. */
  lemma FormatTimeNegative(t: int)
    requires t < 0
    ensures t / 60 < 0 && IntToString(t / 60)[0] == '-'
    ensures JsRem(t, 60) != 0 ==>
      FormatTime(t) == IntToString(t / 60) + ":-" + NatToDecimal(-JsRem(t, 60))
    ensures JsRem(t, 60) == 0 ==> FormatTime(t) == IntToString(t / 60) + ":00"
  {
    var mm := IntToString(t / 60);
    var r := JsRem(t, 60);
    var ss := IntToString(r);
    assert FormatTime(t) == mm + ":" + PadStart2(ss);
    if r != 0 {
      assert ss == "-" + NatToDecimal(-r);
      assert PadStart2(ss) == ss by {
        var p := PadStart2(ss);
        assert |p| == |ss|;
        assert p[0..] == p;
      }
      assert mm + ":" + ("-" + NatToDecimal(-r)) == mm + ":-" + NatToDecimal(-r);
    } else {
      assert ss == [DigitChar(0)];
      assert PadStart2(ss) == "00";
    }
  }

  // ---------------------------------------------------------------------------
  // cycleCameraPosition and getCameraStyle
  // ---------------------------------------------------------------------------

  const Positions := ["topLeft", "topRight", "bottomLeft", "bottomRight"]

  /** `xs.indexOf(x)`. */
  function IndexOf(xs: seq<string>, x: string): (i: int)
    ensures -1 <= i < |xs|
    ensures i >= 0 ==> xs[i] == x && forall j :: 0 <= j < i ==> xs[j] != x
    ensures i == -1 <==> x !in xs
    decreases |xs|
  {
    if |xs| == 0 then -1
    else if xs[0] == x then 0
    else
      var i := IndexOf(xs[1..], x);
      if i == -1 then -1 else i + 1
  }

  /** The next corner clockwise-by-list; an unknown name restarts at topLeft. */
  function CyclePosition(p: string): (q: string)
    ensures q in Positions
    ensures p !in Positions ==> q == "topLeft"
  {
    Positions[(IndexOf(Positions, p) + 1) % |Positions|]
  }

  lemma PositionsDistinct()
    ensures forall i, j :: 0 <= i < j < |Positions| ==> Positions[i] != Positions[j]
  {
    assert Positions[0][0] == 't' && Positions[1][0] == 't';
    assert Positions[0][3] == 'L' && Positions[1][3] == 'R';
    assert Positions[2][0] == 'b' && Positions[3][0] == 'b';
    assert Positions[2][6] == 'L' && Positions[3][6] == 'R';
  }

  /** Cycling moves from the k-th name to the (k+1)-th, wrapping after four. */
  lemma CycleStep(k: nat)
    requires k < |Positions|
    ensures CyclePosition(Positions[k]) == Positions[(k + 1) % 4]
  {
    PositionsDistinct();
    assert IndexOf(Positions, Positions[k]) == k;
  }

  /** The four corners, and the clockwise-by-list order as a reference. */
  datatype Corner = TopLeft | TopRight | BottomLeft | BottomRight

  /** A corner's place in the list of names. */
  function CornerIndex(c: Corner): (i: nat)
    ensures i < |Positions|
  {
    match c
    case TopLeft => 0
    case TopRight => 1
    case BottomLeft => 2
    case BottomRight => 3
  }

  /** The name the screen stores for a corner. */
  function CornerName(c: Corner): string {
    Positions[CornerIndex(c)]
  }

  function NextCorner(c: Corner): Corner {
    match c
    case TopLeft => TopRight
    case TopRight => BottomLeft
    case BottomLeft => BottomRight
    case BottomRight => TopLeft
  }

  /** The source's index arithmetic on names is the corner order. */
  lemma CycleAgrees(c: Corner)
    ensures CornerName(c) in Positions
    ensures CyclePosition(CornerName(c)) == CornerName(NextCorner(c))
  {
    var k := CornerIndex(c);
    assert CornerIndex(NextCorner(c)) == (k + 1) % 4 by {
      match c
      case TopLeft =>
      case TopRight =>
      case BottomLeft =>
      case BottomRight =>
    }
    CycleStep(k);
  }

  /** Four presses from any corner bring the overlay back to it. */
  lemma CycleReturns(c: Corner)
    ensures CyclePosition(CyclePosition(CyclePosition(CyclePosition(CornerName(c))))) == CornerName(c)
  {
    var c1 := NextCorner(c);
    var c2 := NextCorner(c1);
    var c3 := NextCorner(c2);
    CycleAgrees(c);
    CycleAgrees(c1);
    CycleAgrees(c2);
    CycleAgrees(c3);
    CyclePeriod(c);
  }

  /** Four presses bring every corner back, passing through all four. */
  lemma CyclePeriod(c: Corner)
    ensures NextCorner(NextCorner(NextCorner(NextCorner(c)))) == c
    ensures {c, NextCorner(c), NextCorner(NextCorner(c)), NextCorner(NextCorner(NextCorner(c)))}
      == {TopLeft, TopRight, BottomLeft, BottomRight}
  {
  }

  const Margin := 20

  /** Absolute offsets of the camera overlay; None is an unset side. */
  datatype Style = Style(top: Option<int>, bottom: Option<int>, left: Option<int>, right: Option<int>)

  /** getCameraStyle: 20 from the edge, 80 from the bottom to clear the
      controls; any other name gets the bottom-right style. */
  function CameraStyle(p: string): (s: Style)
    ensures (s.top.Some? <==> s.bottom.None?) && (s.left.Some? <==> s.right.None?)
  {
    if p == "topLeft" then Style(Some(Margin), None, Some(Margin), None)
    else if p == "topRight" then Style(Some(Margin), None, None, Some(Margin))
    else if p == "bottomLeft" then Style(None, Some(Margin + 60), Some(Margin), None)
    else Style(None, Some(Margin + 60), None, Some(Margin))
  }

  /** The style tells the corner: top/bottom and left/right follow the name. */
  lemma CameraStyleCorner(k: nat)
    requires k < |Positions|
    ensures CameraStyle(Positions[k]).top.Some? <==> k < 2
    ensures CameraStyle(Positions[k]).left.Some? <==> k % 2 == 0
  {
    PositionsDistinct();
  }

  /** Unknown names are drawn where bottomRight is drawn. */
  lemma CameraStyleDefault(p: string)
    requires p !in Positions
    ensures CameraStyle(p) == CameraStyle("bottomRight")
  {
  }

  // ---------------------------------------------------------------------------
  // Start, stop and back rules
  // ---------------------------------------------------------------------------

  /** The screen flags the rules read. */
  datatype Screen = Screen(
    isPlaying: bool, showControls: bool, showCamera: bool, isCameraReady: bool,
    isRecording: bool, isProcessing: bool)

  /** togglePlayPause: flip playing, show the controls, and ask for a
      recording when playback starts with the camera shown, ready and idle. */
  function TogglePlayPause(s: Screen): (out: (Screen, bool))
    ensures out.0 == s.(isPlaying := !s.isPlaying, showControls := true)
    ensures out.1 <==> !s.isPlaying && s.showCamera && s.isCameraReady && !s.isRecording
  {
    var next := !s.isPlaying;
    (s.(isPlaying := next, showControls := true), next && s.showCamera && s.isCameraReady && !s.isRecording)
  }

  /** The auto-start effect: a ready, shown, idle camera during playback. */
  predicate AutoStart(s: Screen) {
    s.isCameraReady && s.isPlaying && s.showCamera && !s.isRecording
  }

  /** stopRecording: only with a camera, and only while recording. */
  predicate StopRequested(s: Screen, cameraPresent: bool) {
    cameraPresent && s.isRecording
  }

  /** toggleRecording: stop while recording, start otherwise. */
  function ToggleRecording(s: Screen, cameraPresent: bool): (out: (bool, bool))
    ensures out.0 <==> !s.isRecording
    ensures out.1 <==> s.isRecording && cameraPresent
  {
    if s.isRecording then (false, StopRequested(s, cameraPresent)) else (true, false)
  }

  /** onEnd: stop playing, stop a running recording, show the controls. */
  function OnEnd(s: Screen, cameraPresent: bool): (out: (Screen, bool))
    ensures out.0 == s.(isPlaying := false, showControls := true)
    ensures out.1 <==> s.isRecording && cameraPresent
  {
    (s.(isPlaying := false, showControls := true), s.isRecording && StopRequested(s, cameraPresent))
  }

  /** The state startRecording leaves before its first await. */
  function Began(s: Screen): Screen {
    s.(isRecording := true)
  }

  /** Some caller asks startRecording to run: the play toggle, the
      auto-start effect or the record button. */
  predicate StartRequested(s: Screen, cameraPresent: bool) {
    TogglePlayPause(s).1 || AutoStart(s) || ToggleRecording(s, cameraPresent).0
  }

  /** The play toggle starts a recording exactly when the auto-start effect
      would on the state it leaves, and since startRecording marks the
      recording before the re-render, the effect then does not start a
      second one. Toggling twice restores playback, and of two toggles in a
      row at most one starts a recording. */
  lemma TogglePlayPauseMatchesEffect(s: Screen)
    ensures TogglePlayPause(s).1 <==> AutoStart(TogglePlayPause(s).0)
    ensures TogglePlayPause(s).1 ==> !AutoStart(Began(TogglePlayPause(s).0))
    ensures TogglePlayPause(TogglePlayPause(s).0).0 == s.(showControls := true)
    ensures !(TogglePlayPause(s).1 && TogglePlayPause(TogglePlayPause(s).0).1)
  {
  }

  datatype BackOutcome = Confirm(alert: Alert) | Wait(alert: Alert) | GoBack

  const ConfirmStop := Alert("Recording in Progress", "Stop recording before going back?",
    ["Continue Recording", "Stop & Go Back"])
  const StillProcessing := Alert("Processing Video", "Video is being processed. Please wait...", ["OK"])

  /** handleBackPress: ask while recording, make the user wait while
      processing, otherwise leave. */
  function HandleBackPress(s: Screen): (b: BackOutcome)
    ensures b.GoBack? <==> !s.isRecording && !s.isProcessing
    ensures b.Confirm? <==> s.isRecording
  {
    if s.isRecording then Confirm(ConfirmStop)
    else if s.isProcessing then Wait(StillProcessing)
    else GoBack
  }

  /** The flags of the first render: paused, controls and camera shown, the
      camera not yet ready, nothing recorded or processed. */
  const Mounted := Screen(isPlaying := false, showControls := true, showCamera := true,
    isCameraReady := false, isRecording := false, isProcessing := false)

  /** The on-screen back button is drawn with the controls overlay, which is
      hidden while processing. */
  predicate BackButtonShown(s: Screen) {
    s.showControls && !s.isProcessing
  }

  /** Pressed on screen, back asks for confirmation while recording and
      leaves otherwise: the "please wait" branch is out of its reach. */
  lemma OnScreenBack(s: Screen)
    requires BackButtonShown(s)
    ensures HandleBackPress(s) == if s.isRecording then Confirm(ConfirmStop) else GoBack
    ensures !HandleBackPress(s).Wait?
  {
  }

  /** The hardware listener is registered once, at mount, and keeps the
      handleBackPress of the first render, so it judges every press by the
      mount-time flags: it leaves, even when the current rule would ask to
      stop a running recording or to wait for processing. */
  lemma HardwareBackIsStale(s: Screen)
    ensures HandleBackPress(Mounted) == GoBack
    ensures HandleBackPress(s) != HandleBackPress(Mounted) <==> s.isRecording || s.isProcessing
    ensures s.isRecording ==> HandleBackPress(s).Confirm? && !HandleBackPress(Mounted).Confirm?
  {
  }

  /** The callers of startRecording and stopRecording guard one recording at
      a time: a start is asked for only while none is marked; once one is
      marked, no caller asks for another, back asks for confirmation instead
      of leaving, and the end of the video or the record button stops it
      exactly when the camera exists. Leaving never abandons a recording the
      screen could stop. */
  lemma GuardedLifecycle(s: Screen, cameraPresent: bool)
    ensures StartRequested(s, cameraPresent) ==> !s.isRecording
    ensures var r := Began(s);
      && !StartRequested(r, cameraPresent)
      && HandleBackPress(r).Confirm?
      && (ToggleRecording(r, cameraPresent).1 <==> cameraPresent)
      && (OnEnd(r, cameraPresent).1 <==> cameraPresent)
    ensures OnEnd(s, cameraPresent).1 <==> StopRequested(s, cameraPresent)
    ensures HandleBackPress(s).GoBack? ==> !StopRequested(s, cameraPresent)
  {
  }
}
