/** The slice of react-native-fs and the camera roll the recording pipeline
    uses, over an abstract file system. Whether each native call succeeds is
    an injected outcome `ok`; a call on a missing source fails whatever the
    outcome. */
module FileSystem {
  import opened Results

  type Path = string

  /** What a file holds: a clip as the camera wrote it, or the transcoder's
      re-encoding of some content. */
  datatype Content = Raw(clip: nat) | Transcoded(source: Content)

  datatype Fs = Fs(files: map<Path, Content>, dirs: set<Path>)

  datatype IoError = IoFailed

  /** `RNFS.exists(p)`: a file or a directory. */
  predicate Exists(fs: Fs, p: Path) {
    p in fs.files || p in fs.dirs
  }

  /** `RNFS.mkdir(d)`. */
  function Mkdir(fs: Fs, d: Path, ok: bool): (r: Result<Fs, IoError>)
    ensures r.Ok? <==> ok
    ensures r.Ok? ==> r.value.files == fs.files && r.value.dirs == fs.dirs + {d}
  {
    if ok then Ok(fs.(dirs := fs.dirs + {d})) else Err(IoFailed)
  }

  /** `RNFS.moveFile(from, to)`. */
  function MoveFile(fs: Fs, from: Path, to: Path, ok: bool): (r: Result<Fs, IoError>)
    ensures r.Ok? <==> ok && from in fs.files
    ensures r.Ok? ==> to in r.value.files && r.value.files[to] == fs.files[from]
    ensures r.Ok? && from != to ==> from !in r.value.files
    ensures r.Ok? ==> forall p :: p != from && p != to ==>
      (p in r.value.files <==> p in fs.files) && (p in fs.files ==> r.value.files[p] == fs.files[p])
    ensures r.Ok? ==> r.value.dirs == fs.dirs
  {
    if ok && from in fs.files then
      Ok(fs.(files := (fs.files - {from})[to := fs.files[from]]))
    else Err(IoFailed)
  }

  /** `RNFS.copyFile(from, to)`. */
  function CopyFile(fs: Fs, from: Path, to: Path, ok: bool): (r: Result<Fs, IoError>)
    ensures r.Ok? <==> ok && from in fs.files
    ensures r.Ok? ==> to in r.value.files && r.value.files[to] == fs.files[from]
    ensures r.Ok? ==> forall p :: p != to ==>
      (p in r.value.files <==> p in fs.files) && (p in fs.files ==> r.value.files[p] == fs.files[p])
    ensures r.Ok? ==> r.value.dirs == fs.dirs
  {
    if ok && from in fs.files then Ok(fs.(files := fs.files[to := fs.files[from]]))
    else Err(IoFailed)
  }

  /** `RNFS.unlink(p)` on a file. */
  function Unlink(fs: Fs, p: Path, ok: bool): (r: Result<Fs, IoError>)
    ensures r.Ok? <==> ok && p in fs.files
    ensures r.Ok? ==> r.value.files.Keys == fs.files.Keys - {p}
    ensures r.Ok? ==> forall q :: q in r.value.files ==> r.value.files[q] == fs.files[q]
    ensures r.Ok? ==> r.value.dirs == fs.dirs
  {
    if ok && p in fs.files then Ok(fs.(files := fs.files - {p})) else Err(IoFailed)
  }

  /** Moving a file and moving it back restores the file system, provided
      the target was free. */
  lemma MoveBack(fs: Fs, a: Path, b: Path)
    requires a in fs.files && b !in fs.files
    ensures MoveFile(fs, a, b, true).Ok?
    ensures MoveFile(MoveFile(fs, a, b, true).value, b, a, true) == Ok(fs)
  {
    var fs1 := MoveFile(fs, a, b, true).value;
    var fs2 := MoveFile(fs1, b, a, true).value;
    assert fs2.files == fs.files;
  }

  /** Copying to a free path and removing the copy restores the file system. */
  lemma CopyThenUnlink(fs: Fs, a: Path, b: Path)
    requires a in fs.files && b !in fs.files
    ensures CopyFile(fs, a, b, true).Ok?
    ensures Unlink(CopyFile(fs, a, b, true).value, b, true) == Ok(fs)
  {
    var fs1 := CopyFile(fs, a, b, true).value;
    var fs2 := Unlink(fs1, b, true).value;
    assert fs2.files == fs.files;
  }

  /** A move between two paths is a copy followed by removing the source. */
  lemma MoveIsCopyUnlink(fs: Fs, a: Path, b: Path)
    requires a in fs.files && a != b
    ensures MoveFile(fs, a, b, true) == Unlink(CopyFile(fs, a, b, true).value, a, true)
  {
    var fs1 := MoveFile(fs, a, b, true).value;
    var fs2 := Unlink(CopyFile(fs, a, b, true).value, a, true).value;
    assert fs1.files == fs2.files;
  }

  /** One `CameraRoll.save(uri, { type, album })`. */
  datatype GalleryEntry = GalleryEntry(uri: string, kind: string, album: string)
}
