/** The capture-to-archive pipeline of `startRecording` in
    src/screens/VideoPlayerScreen.js, as a step function. The camera, the
    clock, the file system calls, FFmpeg and the camera roll are oracles:
    their answers are the fields of Outcomes, and the pipeline records every
    call it makes. */
module Recording {
  import opened Results
  import opened Text
  import opened FileSystem
  import opened Transcoder
  import opened Alerts

  // ---------------------------------------------------------------------------
  // Paths
  // ---------------------------------------------------------------------------

  /** `RNFS.DocumentDirectoryPath` and `RNFS.DownloadDirectoryPath`. */
  datatype Roots = Roots(documents: Path, downloads: Path)

  const Album := "VideoPermissionsApp"
  const FileScheme := "file://"

  /** `recording_<ts>.mp4`, the name shared by the final file and its copy. */
  function FileName(ts: nat): string {
    "recording_" + NatToDecimal(ts) + ".mp4"
  }

  function TargetDir(r: Roots): Path {
    r.documents + "/recordings"
  }

  function TempPath(r: Roots, ts: nat): Path {
    TargetDir(r) + "/temp_" + FileName(ts)
  }

  function FinalPath(r: Roots, ts: nat): Path {
    TargetDir(r) + "/" + FileName(ts)
  }

  function DownloadsDir(r: Roots): Path {
    r.downloads + "/" + Album
  }

  function DownloadsTarget(r: Roots, ts: nat): Path {
    DownloadsDir(r) + "/" + FileName(ts)
  }

  /** The temporary file, the final file and the downloads copy are three
      different paths, whatever the two roots and the timestamp. */
  lemma PathsDistinct(r: Roots, ts: nat)
    ensures TempPath(r, ts) != FinalPath(r, ts)
    ensures DownloadsTarget(r, ts) != FinalPath(r, ts)
    ensures DownloadsTarget(r, ts) != TempPath(r, ts)
  {
    TempNotFinal(r, ts);
    CopyNotFinal(r, ts);
    CopyNotTemp(r, ts);
  }

  lemma TempNotFinal(r: Roots, ts: nat)
    ensures TempPath(r, ts) != FinalPath(r, ts)
  {
    assert |TempPath(r, ts)| == |FinalPath(r, ts)| + 5;
  }

  lemma CopyNotFinal(r: Roots, ts: nat)
    ensures DownloadsTarget(r, ts) != FinalPath(r, ts)
  {
    var name := FileName(ts);
    var f, d := FinalPath(r, ts), DownloadsTarget(r, ts);
    if |f| == |d| {
      assert f[|f| - |name| - 2] == 's';
      assert d[|d| - |name| - 2] == 'p';
    }
  }

  lemma CopyNotTemp(r: Roots, ts: nat)
    ensures DownloadsTarget(r, ts) != TempPath(r, ts)
  {
    var name := FileName(ts);
    var t, d := TempPath(r, ts), DownloadsTarget(r, ts);
    if |t| == |d| {
      assert t[|t| - |name| - 1] == '_';
      assert d[|d| - |name| - 1] == '/';
    }
  }

  /** `data.uri.replace('file://', '')`: the first occurrence only. */
  function RawPath(uri: string): (p: Path)
    ensures StartsWith(uri, FileScheme) ==> FileScheme + p == uri
    ensures (forall j :: 0 <= j <= |uri| ==> !OccursAt(uri, FileScheme, j)) ==> p == uri
  {
    if StartsWith(uri, FileScheme) then
      ReplaceFirstPrefix(uri, FileScheme, "");
      ReplaceFirst(uri, FileScheme, "")
    else if forall j :: 0 <= j <= |uri| ==> !OccursAt(uri, FileScheme, j) then
      ReplaceFirstAbsent(uri, FileScheme, "");
      ReplaceFirst(uri, FileScheme, "")
    else ReplaceFirst(uri, FileScheme, "")
  }

  /** The gallery receives the final path as a `file://` URI, which the raw
      path rule turns back into the path. */
  lemma GalleryUriRoundTrip(p: Path)
    ensures RawPath(FileScheme + p) == p
  {
    assert StartsWith(FileScheme + p, FileScheme);
  }

  // ---------------------------------------------------------------------------
  // Oracles and observable state
  // ---------------------------------------------------------------------------

  /** The answers of the outside world for one run. */
  datatype Outcomes = Outcomes(
    recorded: Option<string>,   // `data.uri`, or None when recordAsync rejects
    timestamp: nat,             // Date.now()
    ticks: nat,                 // recording-timer ticks before the run settles
    mkdirOk: bool,
    moveOk: bool,
    transcodeOk: bool,
    unlinkOk: bool,
    fallbackOk: bool,
    downloadsMkdirOk: bool,
    copyOk: bool,
    galleryOk: bool)

  datatype Call =
    | MkdirCall(dir: Path)
    | MoveCall(from: Path, to: Path)
    | TranscodeCall(input: Path, output: Path)
    | UnlinkCall(path: Path)
    | CopyCall(from: Path, to: Path)
    | GalleryCall(uri: string)

  /** The screen state the pipeline drives. */
  datatype Recorder = Recorder(
    isRecording: bool, isProcessing: bool, progress: int, recordingTime: nat, timerRunning: bool)

  const CameraNotReady := Alert("Error", "Camera is not ready", [])
  const RecordFailed := Alert("Error", "Failed to record video", [])
  const SaveFailed := Alert("Save Error", "Recording completed but failed to save.", [])
  const SavedWithGallery := Alert("Recording Saved",
    "Video has been processed and saved to Gallery and Downloads/VideoPermissionsApp.", [])
  const SavedToDownloads := Alert("Recording Saved",
    "Video has been processed and saved to Downloads/VideoPermissionsApp.", [])

  /** A stage's file system, the calls it made, and whether it got through. */
  datatype Step = Step(fs: Fs, calls: seq<Call>, ok: bool)

  predicate IsLater(c: Call) { c.TranscodeCall? || c.CopyCall? || c.GalleryCall? }

  // ---------------------------------------------------------------------------
  // Stages
  // ---------------------------------------------------------------------------

  /** Create the recordings directory when it is missing, then move the
      camera's file to the temporary path. Either failure aborts the save. */
  function PersistTemp(fs: Fs, r: Roots, raw: Path, o: Outcomes): (s: Step)
    ensures forall c :: c in s.calls ==> !IsLater(c)
    ensures s.ok <==> (Exists(fs, TargetDir(r)) || o.mkdirOk) && o.moveOk && raw in fs.files
    ensures s.ok ==> (TempPath(r, o.timestamp) in s.fs.files
                      && s.fs.files[TempPath(r, o.timestamp)] == fs.files[raw])
    ensures s.fs.files.Keys <= fs.files.Keys + {TempPath(r, o.timestamp)}
  {
    var temp := TempPath(r, o.timestamp);
    var dir := TargetDir(r);
    var made := if Exists(fs, dir) then Step(fs, [], true)
                else match Mkdir(fs, dir, o.mkdirOk)
                     case Ok(fs1) => Step(fs1, [MkdirCall(dir)], true)
                     case Err(_) => Step(fs, [MkdirCall(dir)], false);
    if !made.ok then made
    else
      match MoveFile(made.fs, raw, temp, o.moveOk)
      case Ok(fs2) => Step(fs2, made.calls + [MoveCall(raw, temp)], true)
      case Err(_) => Step(made.fs, made.calls + [MoveCall(raw, temp)], false)
  }

  /** Transcode the temporary file into the final one and remove it (a failed
      removal is only logged); if transcoding fails, move the temporary file
      to the final path instead. Only a failed fallback aborts the save. */
  function Promote(fs: Fs, r: Roots, o: Outcomes): (s: Step)
    requires TempPath(r, o.timestamp) in fs.files
    ensures s.ok <==> o.transcodeOk || o.fallbackOk
    ensures |s.calls| == 2 && s.calls[0] == TranscodeCall(TempPath(r, o.timestamp), FinalPath(r, o.timestamp))
    ensures s.ok ==> FinalPath(r, o.timestamp) in s.fs.files
    ensures !s.ok ==> s.fs == fs
    ensures o.transcodeOk ==>
      s.fs.files[FinalPath(r, o.timestamp)] == Transcoded(fs.files[TempPath(r, o.timestamp)])
      && (TempPath(r, o.timestamp) in s.fs.files <==> !o.unlinkOk)
    ensures !o.transcodeOk && o.fallbackOk ==>
      s.fs.files[FinalPath(r, o.timestamp)] == fs.files[TempPath(r, o.timestamp)]
      && TempPath(r, o.timestamp) !in s.fs.files
    ensures s.fs.dirs == fs.dirs
  {
    var temp := TempPath(r, o.timestamp);
    var final := FinalPath(r, o.timestamp);
    PathsDistinct(r, o.timestamp);
    match Transcode(fs, temp, final, o.transcodeOk)
    case Ok(fs1) =>
      var fs2 := match Unlink(fs1, temp, o.unlinkOk) case Ok(fs3) => fs3 case Err(_) => fs1;
      Step(fs2, [TranscodeCall(temp, final), UnlinkCall(temp)], true)
    case Err(_) =>
      match MoveFile(fs, temp, final, o.fallbackOk)
      case Ok(fs2) => Step(fs2, [TranscodeCall(temp, final), MoveCall(temp, final)], true)
      case Err(_) => Step(fs, [TranscodeCall(temp, final), MoveCall(temp, final)], false)
  }

  /** Copy the final file to Downloads/VideoPermissionsApp, creating that
      directory when it is missing. Best effort: `ok` says whether the copy
      exists afterwards, and nothing downstream reads it. */
  function CopyToDownloads(fs: Fs, r: Roots, o: Outcomes): (s: Step)
    requires FinalPath(r, o.timestamp) in fs.files
    ensures s.ok <==> (Exists(fs, DownloadsDir(r)) || o.downloadsMkdirOk) && o.copyOk
    ensures s.ok ==> s.fs.files == fs.files[DownloadsTarget(r, o.timestamp) := fs.files[FinalPath(r, o.timestamp)]]
    ensures !s.ok ==> s.fs.files == fs.files
    ensures forall c :: c in s.calls ==> !c.TranscodeCall? && !c.GalleryCall?
  {
    var dir := DownloadsDir(r);
    var target := DownloadsTarget(r, o.timestamp);
    var final := FinalPath(r, o.timestamp);
    var made := if Exists(fs, dir) then Step(fs, [], true)
                else match Mkdir(fs, dir, o.downloadsMkdirOk)
                     case Ok(fs1) => Step(fs1, [MkdirCall(dir)], true)
                     case Err(_) => Step(fs, [MkdirCall(dir)], false);
    if !made.ok then made
    else
      match CopyFile(made.fs, final, target, o.copyOk)
      case Ok(fs2) => Step(fs2, made.calls + [CopyCall(final, target)], true)
      case Err(_) => Step(made.fs, made.calls + [CopyCall(final, target)], false)
  }

  /** `CameraRoll.save('file://' + final, { type: 'video', album })`. */
  function SaveToGallery(gallery: seq<GalleryEntry>, final: Path, ok: bool): (g: seq<GalleryEntry>)
    ensures ok ==> g == gallery + [GalleryEntry(FileScheme + final, "video", Album)]
    ensures !ok ==> g == gallery
  {
    if ok then gallery + [GalleryEntry(FileScheme + final, "video", Album)] else gallery
  }

  /** The result of one run. */
  datatype Run = Run(fs: Fs, gallery: seq<GalleryEntry>, alert: Alert, calls: seq<Call>, ui: Recorder)

  /** Everything after the camera handed over its file (the inner `try`). */
  function SaveRecording(fs: Fs, gallery: seq<GalleryEntry>, r: Roots, uri: string, o: Outcomes)
    : (out: (Fs, seq<GalleryEntry>, Alert, seq<Call>))
    ensures out.2 in {SaveFailed, SavedWithGallery, SavedToDownloads}
  {
    var persisted := PersistTemp(fs, r, RawPath(uri), o);
    if !persisted.ok then (persisted.fs, gallery, SaveFailed, persisted.calls)
    else
      var promoted := Promote(persisted.fs, r, o);
      var calls := persisted.calls + promoted.calls;
      if !promoted.ok then (promoted.fs, gallery, SaveFailed, calls)
      else
        var copied := CopyToDownloads(promoted.fs, r, o);
        var final := FinalPath(r, o.timestamp);
        var alert := if o.galleryOk then SavedWithGallery else SavedToDownloads;
        (copied.fs, SaveToGallery(gallery, final, o.galleryOk), alert,
         calls + copied.calls + [GalleryCall(FileScheme + final)])
  }

  /** startRecording. Without a camera, or before it is ready, it only
      alerts. Otherwise it marks the screen recording and starts the timer,
      waits for the clip, saves it, and in every case ends with the
      recording and processing flags down, progress 0 and the timer
      stopped. It does not look at `isRecording` itself. */
  function StartRecording(ui: Recorder, cameraPresent: bool, cameraReady: bool, r: Roots,
                          fs: Fs, gallery: seq<GalleryEntry>, o: Outcomes): (run: Run)
    ensures !(cameraPresent && cameraReady) ==>
      run == Run(fs, gallery, CameraNotReady, [], ui)
    ensures cameraPresent && cameraReady ==>
      !run.ui.isRecording && !run.ui.isProcessing && run.ui.progress == 0 && !run.ui.timerRunning
    ensures cameraPresent && cameraReady && o.recorded.None? ==>
      run == Run(fs, gallery, RecordFailed, [], run.ui)
  {
    if !(cameraPresent && cameraReady) then Run(fs, gallery, CameraNotReady, [], ui)
    else
      var settled := Recorder(false, false, 0, o.ticks, false);
      match o.recorded
      case None => Run(fs, gallery, RecordFailed, [], settled)
      case Some(uri) =>
        var (fs', gallery', alert, calls) := SaveRecording(fs, gallery, r, uri, o);
        Run(fs', gallery', alert, calls, settled)
  }

  // ---------------------------------------------------------------------------
  // Properties of the pipeline
  // ---------------------------------------------------------------------------

  /** Shorthand for a run with a ready camera that produced `uri`. */
  function Recorded(r: Roots, fs: Fs, gallery: seq<GalleryEntry>, uri: string, o: Outcomes): Run
    requires o.recorded == Some(uri)
  {
    StartRecording(Recorder(false, false, 0, 0, false), true, true, r, fs, gallery, o)
  }

  /** A failed temporary move (or directory creation) ends in a save error
      and nothing is transcoded, copied or put in the gallery. */
  lemma TempFailureAborts(r: Roots, fs: Fs, gallery: seq<GalleryEntry>, uri: string, o: Outcomes)
    requires o.recorded == Some(uri)
    requires !PersistTemp(fs, r, RawPath(uri), o).ok
    ensures var run := Recorded(r, fs, gallery, uri, o);
      run.alert == SaveFailed && run.gallery == gallery
      && forall c :: c in run.calls ==> !IsLater(c)
  {
  }

  /** When transcoding succeeds the final file is the re-encoded clip, the
      run is reported saved, and the temporary file survives only if its
      removal failed. */
  lemma TranscodeSuccess(r: Roots, fs: Fs, gallery: seq<GalleryEntry>, uri: string, o: Outcomes)
    requires o.recorded == Some(uri)
    requires PersistTemp(fs, r, RawPath(uri), o).ok && o.transcodeOk
    ensures var run := Recorded(r, fs, gallery, uri, o);
      && run.alert.title == "Recording Saved"
      && FinalPath(r, o.timestamp) in run.fs.files
      && run.fs.files[FinalPath(r, o.timestamp)] == Transcoded(fs.files[RawPath(uri)])
      && (TempPath(r, o.timestamp) in run.fs.files <==> !o.unlinkOk)
  {
    var persisted := PersistTemp(fs, r, RawPath(uri), o);
    var promoted := Promote(persisted.fs, r, o);
    CopyKeepsArchive(promoted.fs, r, o);
  }

  /** When transcoding fails and the fallback move succeeds, the final file
      is the raw clip and the run is reported saved. */
  lemma TranscodeFallback(r: Roots, fs: Fs, gallery: seq<GalleryEntry>, uri: string, o: Outcomes)
    requires o.recorded == Some(uri)
    requires PersistTemp(fs, r, RawPath(uri), o).ok && !o.transcodeOk && o.fallbackOk
    ensures var run := Recorded(r, fs, gallery, uri, o);
      && run.alert.title == "Recording Saved"
      && FinalPath(r, o.timestamp) in run.fs.files
      && run.fs.files[FinalPath(r, o.timestamp)] == fs.files[RawPath(uri)]
      && TempPath(r, o.timestamp) !in run.fs.files
  {
    var persisted := PersistTemp(fs, r, RawPath(uri), o);
    var promoted := Promote(persisted.fs, r, o);
    CopyKeepsArchive(promoted.fs, r, o);
  }

  /** Only a failed fallback turns a transcoding failure into a save error;
      then nothing is copied or put in the gallery. */
  lemma FallbackFailure(r: Roots, fs: Fs, gallery: seq<GalleryEntry>, uri: string, o: Outcomes)
    requires o.recorded == Some(uri)
    requires PersistTemp(fs, r, RawPath(uri), o).ok && !o.transcodeOk && !o.fallbackOk
    ensures var run := Recorded(r, fs, gallery, uri, o);
      && run.alert == SaveFailed && run.gallery == gallery
      && forall c :: c in run.calls ==> !c.CopyCall? && !c.GalleryCall?
  {
    var persisted := PersistTemp(fs, r, RawPath(uri), o);
    var promoted := Promote(persisted.fs, r, o);
    assert forall c :: c in persisted.calls + promoted.calls ==> c in persisted.calls || c in promoted.calls;
  }

  /** The downloads copy touches neither the final file nor the temporary one. */
  lemma CopyKeepsArchive(fs: Fs, r: Roots, o: Outcomes)
    requires FinalPath(r, o.timestamp) in fs.files
    ensures var s := CopyToDownloads(fs, r, o);
      && FinalPath(r, o.timestamp) in s.fs.files
      && s.fs.files[FinalPath(r, o.timestamp)] == fs.files[FinalPath(r, o.timestamp)]
      && (TempPath(r, o.timestamp) in s.fs.files <==> TempPath(r, o.timestamp) in fs.files)
  {
    PathsDistinct(r, o.timestamp);
  }

  /** Once the clip is archived, the downloads copy and the gallery only
      change the wording: the title is "Recording Saved" whatever the copy
      did, and the message names the gallery iff the gallery save succeeded. */
  lemma BestEffortStages(r: Roots, fs: Fs, gallery: seq<GalleryEntry>, uri: string, o: Outcomes,
                         downloadsMkdirOk: bool, copyOk: bool)
    requires o.recorded == Some(uri)
    requires PersistTemp(fs, r, RawPath(uri), o).ok && (o.transcodeOk || o.fallbackOk)
    ensures var o' := o.(downloadsMkdirOk := downloadsMkdirOk, copyOk := copyOk);
      var run := Recorded(r, fs, gallery, uri, o);
      var run' := Recorded(r, fs, gallery, uri, o');
      && run'.alert == run.alert
      && run'.fs.files[FinalPath(r, o.timestamp)] == run.fs.files[FinalPath(r, o.timestamp)]
      && run'.gallery == run.gallery
      && run.alert == (if o.galleryOk then SavedWithGallery else SavedToDownloads)
  {
    var o' := o.(downloadsMkdirOk := downloadsMkdirOk, copyOk := copyOk);
    var persisted := PersistTemp(fs, r, RawPath(uri), o);
    assert PersistTemp(fs, r, RawPath(uri), o') == persisted;
    assert Promote(persisted.fs, r, o') == Promote(persisted.fs, r, o);
    ArchivedRun(r, fs, gallery, uri, o);
    ArchivedRun(r, fs, gallery, uri, o');
  }

  /** A run whose clip reached the final path ends with the promoted final
      file, the gallery save's result and the matching alert. */
  lemma ArchivedRun(r: Roots, fs: Fs, gallery: seq<GalleryEntry>, uri: string, o: Outcomes)
    requires o.recorded == Some(uri)
    requires PersistTemp(fs, r, RawPath(uri), o).ok && (o.transcodeOk || o.fallbackOk)
    ensures var promoted := Promote(PersistTemp(fs, r, RawPath(uri), o).fs, r, o);
      var run := Recorded(r, fs, gallery, uri, o);
      && FinalPath(r, o.timestamp) in run.fs.files
      && run.fs.files[FinalPath(r, o.timestamp)] == promoted.fs.files[FinalPath(r, o.timestamp)]
      && run.gallery == SaveToGallery(gallery, FinalPath(r, o.timestamp), o.galleryOk)
      && run.alert == (if o.galleryOk then SavedWithGallery else SavedToDownloads)
  {
    var persisted := PersistTemp(fs, r, RawPath(uri), o);
    var promoted := Promote(persisted.fs, r, o);
    CopyKeepsArchive(promoted.fs, r, o);
  }

  /** A successful save puts exactly one entry in the gallery, for the final
      file, and reports it. */
  lemma GalleryEntryIsFinal(r: Roots, fs: Fs, gallery: seq<GalleryEntry>, uri: string, o: Outcomes)
    requires o.recorded == Some(uri)
    requires PersistTemp(fs, r, RawPath(uri), o).ok && (o.transcodeOk || o.fallbackOk) && o.galleryOk
    ensures var run := Recorded(r, fs, gallery, uri, o);
      && run.gallery == gallery + [GalleryEntry(FileScheme + FinalPath(r, o.timestamp), "video", Album)]
      && RawPath(run.gallery[|gallery|].uri) == FinalPath(r, o.timestamp)
      && run.alert == SavedWithGallery
  {
    GalleryUriRoundTrip(FinalPath(r, o.timestamp));
  }

  /** startRecording has no guard of its own: with a ready camera, a call
      made while a recording is already running does exactly what a call
      from an idle screen does, and with a clip to save it touches the file
      system again. */
  lemma NoInFlightGuard(ui: Recorder, idle: Recorder, r: Roots, fs: Fs, gallery: seq<GalleryEntry>,
                        o: Outcomes)
    requires ui.isRecording && !idle.isRecording && o.recorded.Some?
    requires RawPath(o.recorded.value) in fs.files && o.moveOk && (Exists(fs, TargetDir(r)) || o.mkdirOk)
    ensures StartRecording(ui, true, true, r, fs, gallery, o)
         == StartRecording(idle, true, true, r, fs, gallery, o)
    ensures StartRecording(ui, true, true, r, fs, gallery, o).calls != []
  {
    var persisted := PersistTemp(fs, r, RawPath(o.recorded.value), o);
    assert persisted.calls != [];
  }
}
