/** compressVideoWithFFmpeg (src/screens/VideoPlayerScreen.js): the FFmpeg
    session is an oracle whose success is injected; what is modelled is the
    file it produces and the progress values it shows while it runs. */
module Transcoder {
  import opened Results
  import opened FileSystem

  /** A successful session writes the re-encoding of its input to its
      output; a failed one (a non-success return code or an execution error,
      both rejected alike) leaves the file system as it was. */
  function Transcode(fs: Fs, input: Path, output: Path, ok: bool): (r: Result<Fs, IoError>)
    ensures r.Ok? <==> ok && input in fs.files
    ensures r.Ok? ==> output in r.value.files && r.value.files[output] == Transcoded(fs.files[input])
    ensures r.Ok? ==> forall p :: p != output ==>
      (p in r.value.files <==> p in fs.files) && (p in fs.files ==> r.value.files[p] == fs.files[p])
    ensures r.Ok? ==> r.value.dirs == fs.dirs
  {
    if ok && input in fs.files then Ok(fs.(files := fs.files[output := Transcoded(fs.files[input])]))
    else Err(IoFailed)
  }

  /** The progress shown for a statistics time of `ms` > 0 milliseconds:
      the elapsed share of 30 s, capped at 1, as a rounded percentage. */
  function ProgressOf(ms: int): (p: int)
    requires ms > 0
    ensures 0 <= p <= 100
    ensures ms >= 30000 ==> p == 100
    ensures ms <= 30000 ==> 600 * p <= 2 * ms + 300 < 600 * (p + 1)
  {
    if ms >= 30000 then 100 else (ms + 150) / 300
  }

  /** Later statistics never show less progress. */
  lemma ProgressMonotone(ms1: int, ms2: int)
    requires 0 < ms1 <= ms2
    ensures ProgressOf(ms1) <= ProgressOf(ms2)
  {
  }

  /** The progress values set while a session runs: 0 when it starts, one
      value per statistics report with a positive time (others are
      ignored), and 0 when it settles, whether it succeeded or not. */
  function ProgressTrace(times: seq<int>): (r: seq<int>)
    ensures |r| >= 2 && r[0] == 0 && r[|r| - 1] == 0
    ensures forall i :: 0 <= i < |r| ==> 0 <= r[i] <= 100
  {
    [0] + Updates(times) + [0]
  }

  function Updates(times: seq<int>): (r: seq<int>)
    ensures |r| <= |times|
    ensures forall i :: 0 <= i < |r| ==> 0 <= r[i] <= 100
    decreases |times|
  {
    if |times| == 0 then []
    else if times[0] > 0 then [ProgressOf(times[0])] + Updates(times[1..])
    else Updates(times[1..])
  }

  predicate NonDecreasing(s: seq<int>) {
    forall i, j :: 0 <= i < j < |s| ==> s[i] <= s[j]
  }

  /** Statistics times that never go back give a bar that never goes back,
      and each update is at least the one of any earlier positive time. */
  lemma {:induction false} UpdatesMonotone(times: seq<int>)
    requires NonDecreasing(times)
    ensures NonDecreasing(Updates(times))
    ensures forall i :: 0 <= i < |Updates(times)| ==> Updates(times)[i] >= LowerBound(times)
    decreases |times|
  {
    if |times| > 0 {
      var rest := times[1..];
      assert NonDecreasing(rest);
      UpdatesMonotone(rest);
      if times[0] > 0 {
        forall j | 0 <= j < |Updates(rest)|
          ensures ProgressOf(times[0]) <= Updates(rest)[j]
        {
          RestBound(times);
        }
      }
    }
  }

  /** The smallest progress a report can show: that of the first positive time. */
  function LowerBound(times: seq<int>): int {
    if |times| > 0 && times[0] > 0 then ProgressOf(times[0]) else 0
  }

  lemma RestBound(times: seq<int>)
    requires |times| > 0 && times[0] > 0 && NonDecreasing(times)
    ensures |times| > 1 ==> LowerBound(times[1..]) >= ProgressOf(times[0])
  {
    if |times| > 1 {
      ProgressMonotone(times[0], times[1]);
    }
  }
}
