/** The permission-requirement engine of src/utils/PermissionUtils.js.
    The device's API level (`Platform.Version`) is the parameter `api`; the
    OS permission provider (`check`, `request`, `requestMultiple`) is passed
    in as oracle functions, so every operation here is a pure function. */
module Permissions {
  import opened Results
  import opened Text
  import opened OrderedMap

  // ---------------------------------------------------------------------------
  // Version snapshot (getAndroidVersionInfo)
  // ---------------------------------------------------------------------------

  /** `version` is None, and every flag false, in the empty object the
      permission screen holds before its first successful check. */
  datatype VersionInfo = VersionInfo(
    version: Option<int>,
    isAndroid6Plus: bool,
    isAndroid10Plus: bool,
    isAndroid11Plus: bool,
    isAndroid12Plus: bool,
    isAndroid13Plus: bool,
    isAndroid14Plus: bool)

  const EmptyVersionInfo := VersionInfo(None, false, false, false, false, false, false)

  /** Each flag implies every lower one. */
  predicate FlagsNested(info: VersionInfo) {
    && (info.isAndroid14Plus ==> info.isAndroid13Plus)
    && (info.isAndroid13Plus ==> info.isAndroid12Plus)
    && (info.isAndroid12Plus ==> info.isAndroid11Plus)
    && (info.isAndroid11Plus ==> info.isAndroid10Plus)
    && (info.isAndroid10Plus ==> info.isAndroid6Plus)
  }

  /** Every flag set in `a` is set in `b`. */
  predicate FlagsLe(a: VersionInfo, b: VersionInfo) {
    && (a.isAndroid6Plus ==> b.isAndroid6Plus)
    && (a.isAndroid10Plus ==> b.isAndroid10Plus)
    && (a.isAndroid11Plus ==> b.isAndroid11Plus)
    && (a.isAndroid12Plus ==> b.isAndroid12Plus)
    && (a.isAndroid13Plus ==> b.isAndroid13Plus)
    && (a.isAndroid14Plus ==> b.isAndroid14Plus)
  }

  function VersionInfoOf(api: int): VersionInfo {
    VersionInfo(Some(api), api >= 23, api >= 29, api >= 30, api >= 31, api >= 33, api >= 34)
  }

  lemma FlagsMonotone(api: int, later: int)
    ensures FlagsNested(VersionInfoOf(api))
    ensures FlagsNested(EmptyVersionInfo)
    ensures api <= later ==> FlagsLe(VersionInfoOf(api), VersionInfoOf(later))
  {
  }

  // ---------------------------------------------------------------------------
  // Storage tiers
  // ---------------------------------------------------------------------------

  /** The storage requirement that applies to a version, in the order the
      satisfaction and requiredness rules test the flags. */
  datatype StorageTier =
    | GranularMedia   // 13+: video and images
    | ManageOrRead    // 11-12: all-files access or read storage
    | ReadOnly        // 10: read storage
    | ReadWrite       // 9 and below: read and write storage

  function TierOf(info: VersionInfo): StorageTier {
    if info.isAndroid13Plus then GranularMedia
    else if info.isAndroid11Plus then ManageOrRead
    else if info.isAndroid10Plus then ReadOnly
    else ReadWrite
  }

  /** Exactly one tier per API level, and which one. */
  lemma TierBands(api: int)
    ensures TierOf(VersionInfoOf(api)) == GranularMedia <==> api >= 33
    ensures TierOf(VersionInfoOf(api)) == ManageOrRead <==> 30 <= api < 33
    ensures TierOf(VersionInfoOf(api)) == ReadOnly <==> api == 29
    ensures TierOf(VersionInfoOf(api)) == ReadWrite <==> api < 29
  {
  }

  // ---------------------------------------------------------------------------
  // Keys and native identifiers (getPermissionKey, isValidPermission)
  // ---------------------------------------------------------------------------

  datatype Key =
    | Camera | FineLocation | CoarseLocation
    | ReadStorage | WriteStorage | ManageStorage
    | ReadMediaVideo | ReadMediaImages | ReadMediaAudio
    | Unknown

  const CAMERA := "android.permission.CAMERA"
  const ACCESS_FINE_LOCATION := "android.permission.ACCESS_FINE_LOCATION"
  const ACCESS_COARSE_LOCATION := "android.permission.ACCESS_COARSE_LOCATION"
  const READ_EXTERNAL_STORAGE := "android.permission.READ_EXTERNAL_STORAGE"
  const WRITE_EXTERNAL_STORAGE := "android.permission.WRITE_EXTERNAL_STORAGE"
  const MANAGE_EXTERNAL_STORAGE := "android.permission.MANAGE_EXTERNAL_STORAGE"
  const READ_MEDIA_VIDEO := "android.permission.READ_MEDIA_VIDEO"
  const READ_MEDIA_IMAGES := "android.permission.READ_MEDIA_IMAGES"
  const READ_MEDIA_AUDIO := "android.permission.READ_MEDIA_AUDIO"

  function NativeId(k: Key): string
    requires k != Unknown
  {
    match k
    case Camera => CAMERA
    case FineLocation => ACCESS_FINE_LOCATION
    case CoarseLocation => ACCESS_COARSE_LOCATION
    case ReadStorage => READ_EXTERNAL_STORAGE
    case WriteStorage => WRITE_EXTERNAL_STORAGE
    case ManageStorage => MANAGE_EXTERNAL_STORAGE
    case ReadMediaVideo => READ_MEDIA_VIDEO
    case ReadMediaImages => READ_MEDIA_IMAGES
    case ReadMediaAudio => READ_MEDIA_AUDIO
  }

  /** getPermissionKey: the short key of a native id, Unknown for any other string. */
  function PermissionKey(id: string): Key {
    if id == CAMERA then Camera
    else if id == ACCESS_FINE_LOCATION then FineLocation
    else if id == ACCESS_COARSE_LOCATION then CoarseLocation
    else if id == READ_EXTERNAL_STORAGE then ReadStorage
    else if id == WRITE_EXTERNAL_STORAGE then WriteStorage
    else if id == MANAGE_EXTERNAL_STORAGE then ManageStorage
    else if id == READ_MEDIA_VIDEO then ReadMediaVideo
    else if id == READ_MEDIA_IMAGES then ReadMediaImages
    else if id == READ_MEDIA_AUDIO then ReadMediaAudio
    else Unknown
  }

  /** The key table is a bijection between the nine native ids and the nine
      known keys; every other string maps to Unknown. */
  lemma KeyIdRoundTrip(k: Key, id: string)
    ensures k != Unknown ==> PermissionKey(NativeId(k)) == k
    ensures PermissionKey(id) != Unknown ==> NativeId(PermissionKey(id)) == id
  {
    if k != Unknown {
      KnownId(k);
    }
  }

  lemma PermissionKeyInjective(a: string, b: string)
    requires PermissionKey(a) != Unknown && PermissionKey(a) == PermissionKey(b)
    ensures a == b
  {
    KeyIdRoundTrip(Unknown, a);
    KeyIdRoundTrip(Unknown, b);
  }

  /** The name the status object uses for a key ('unknown' for Unknown). */
  function KeyName(k: Key): string {
    match k
    case Camera => "camera"
    case FineLocation => "fineLocation"
    case CoarseLocation => "coarseLocation"
    case ReadStorage => "readStorage"
    case WriteStorage => "writeStorage"
    case ManageStorage => "manageStorage"
    case ReadMediaVideo => "readMediaVideo"
    case ReadMediaImages => "readMediaImages"
    case ReadMediaAudio => "readMediaAudio"
    case Unknown => "unknown"
  }

  /** getPermissionDisplayName: a key outside the table shows its own name. */
  function DisplayName(k: Key): string {
    match k
    case Camera => "Camera"
    case FineLocation => "Precise Location"
    case CoarseLocation => "Approximate Location"
    case ReadStorage => "Read Storage"
    case WriteStorage => "Write Storage"
    case ManageStorage => "All Files Access"
    case ReadMediaVideo => "Access Videos"
    case ReadMediaImages => "Access Images"
    case ReadMediaAudio => "Access Audio"
    case Unknown => KeyName(Unknown)
  }

  /** getPermissionDescription, with its fallback text. */
  function Description(k: Key): string {
    match k
    case Camera => "Take photos and record videos"
    case FineLocation => "Access your precise location using GPS"
    case CoarseLocation => "Access your approximate location"
    case ReadStorage => "Read files from device storage"
    case WriteStorage => "Write files to device storage"
    case ManageStorage => "Access all files on your device"
    case ReadMediaVideo => "Access video files on your device"
    case ReadMediaImages => "Access image files on your device"
    case ReadMediaAudio => "Access audio files on your device"
    case Unknown => "Required for app functionality"
  }

  const PermissionPrefix := "android.permission."

  predicate IsValidPermission(p: string) {
    StartsWith(p, PermissionPrefix)
  }

  /** `ps.filter(isValidPermission)`. */
  function FilterValid(ps: seq<string>): (r: seq<string>)
    ensures forall p :: p in r <==> p in ps && IsValidPermission(p)
    ensures (forall i :: 0 <= i < |ps| ==> IsValidPermission(ps[i])) ==> r == ps
  {
    if |ps| == 0 then []
    else
      assert ps == [ps[0]] + ps[1..];
      (if IsValidPermission(ps[0]) then [ps[0]] else []) + FilterValid(ps[1..])
  }

  /** Every id the engine can name is valid and reads back as its own key. */
  lemma KnownIds()
    ensures forall k :: k != Unknown ==> IsValidPermission(NativeId(k))
    ensures forall k :: k != Unknown ==> PermissionKey(NativeId(k)) == k
  {
    forall k | k != Unknown
      ensures IsValidPermission(NativeId(k)) && PermissionKey(NativeId(k)) == k
    {
      KnownId(k);
    }
  }

  lemma KnownId(k: Key)
    requires k != Unknown
    ensures IsValidPermission(NativeId(k))
    ensures PermissionKey(NativeId(k)) == k
  {
    IdValid(k);
    KeyOfId(k);
  }

  lemma IdValid(k: Key)
    requires k != Unknown
    ensures IsValidPermission(NativeId(k))
  {
    assert NativeId(k)[..|PermissionPrefix|] == PermissionPrefix;
  }

  /** Ids of different lengths differ; the two pairs of equal length differ
      right after the prefix and in the word after READ_MEDIA_. */
  lemma KeyOfId(k: Key)
    requires k != Unknown
    ensures PermissionKey(NativeId(k)) == k
  {
    if k == CoarseLocation || k == WriteStorage {
      assert ACCESS_COARSE_LOCATION[19] != WRITE_EXTERNAL_STORAGE[19];
    } else if k == ReadMediaVideo || k == ReadMediaAudio {
      assert READ_MEDIA_VIDEO[30] != READ_MEDIA_AUDIO[30];
    }
  }

  // ---------------------------------------------------------------------------
  // Permission lists (getRequiredPermissions, getSpecialPermissions)
  // ---------------------------------------------------------------------------

  /** The storage keys of the regular list: 13+, then 10-12, then 9 and below. */
  function StorageKeys(info: VersionInfo): seq<Key> {
    if info.isAndroid13Plus then [ReadMediaVideo, ReadMediaImages]
    else if info.isAndroid10Plus then [ReadStorage]
    else [ReadStorage, WriteStorage]
  }

  /** The keys of the regular list before filtering and deduplication. */
  function RegularKeys(api: int): (ks: seq<Key>)
    ensures Distinct(ks) && Unknown !in ks
  {
    [Camera, FineLocation, CoarseLocation] + StorageKeys(VersionInfoOf(api))
  }

  /** `PERMISSIONS.ANDROID.<X>` for each key, in order. */
  function Ids(ks: seq<Key>): (ids: seq<string>)
    requires Unknown !in ks
    ensures |ids| == |ks|
    ensures forall i :: 0 <= i < |ks| ==> ids[i] == NativeId(ks[i])
  {
    seq(|ks|, i requires 0 <= i < |ks| => NativeId(ks[i]))
  }

  /** Distinct ids carry distinct short keys. */
  predicate KeysDistinct(ids: seq<string>) {
    forall i, j :: 0 <= i < j < |ids| ==> PermissionKey(ids[i]) != PermissionKey(ids[j])
  }

  lemma IdsWellFormed(ks: seq<Key>)
    requires Unknown !in ks && Distinct(ks)
    ensures forall i :: 0 <= i < |ks| ==> PermissionKey(Ids(ks)[i]) == ks[i]
    ensures forall i :: 0 <= i < |ks| ==> IsValidPermission(Ids(ks)[i])
    ensures KeysDistinct(Ids(ks))
    ensures Distinct(Ids(ks))
    ensures forall k :: k != Unknown ==> (NativeId(k) in Ids(ks) <==> k in ks)
  {
    KnownIds();
    var ids := Ids(ks);
    forall k | k != Unknown && NativeId(k) in ids
      ensures k in ks
    {
      var i :| 0 <= i < |ids| && ids[i] == NativeId(k);
      assert PermissionKey(ids[i]) == ks[i];
    }
    forall k | k in ks
      ensures NativeId(k) in ids
    {
      var i :| 0 <= i < |ks| && ks[i] == k;
      assert ids[i] == NativeId(k);
    }
  }

  /** The regular permissions to query: the ids of RegularKeys, all valid,
      none repeated; filtering and deduplication remove nothing. */
  function RequiredPermissions(api: int): (r: seq<string>)
    ensures r == Ids(RegularKeys(api))
    ensures Distinct(r) && KeysDistinct(r)
    ensures forall i :: 0 <= i < |r| ==> IsValidPermission(r[i])
  {
    var ids := Ids(RegularKeys(api));
    IdsWellFormed(RegularKeys(api));
    Dedupe(FilterValid(ids))
  }

  /** getRequiredPermissions always holds camera and both locations, plus
      exactly one storage band. */
  lemma RequiredPermissionBands(api: int)
    ensures var r := RequiredPermissions(api);
      && CAMERA in r && ACCESS_FINE_LOCATION in r && ACCESS_COARSE_LOCATION in r
      && (READ_MEDIA_VIDEO in r <==> api >= 33)
      && (READ_MEDIA_IMAGES in r <==> api >= 33)
      && (READ_EXTERNAL_STORAGE in r <==> api < 33)
      && (WRITE_EXTERNAL_STORAGE in r <==> api < 29)
      && MANAGE_EXTERNAL_STORAGE !in r && READ_MEDIA_AUDIO !in r
      && |r| == (if 29 <= api < 33 then 4 else 5)
  {
    RegularKeyBands(api);
    InRequired(api, Camera);
    InRequired(api, FineLocation);
    InRequired(api, CoarseLocation);
    InRequired(api, ReadMediaVideo);
    InRequired(api, ReadMediaImages);
    InRequired(api, ReadStorage);
    InRequired(api, WriteStorage);
    InRequired(api, ManageStorage);
    InRequired(api, ReadMediaAudio);
  }

  /** getRequiredPermissions has three storage branches, not four: API 30-32
      request exactly what API 29 requests, although the satisfaction rule
      puts them in a different tier. */
  lemma RequestListIgnoresManageTier(api: int)
    requires 29 <= api < 33
    ensures RequiredPermissions(api) == RequiredPermissions(29)
    ensures api >= 30 ==> TierOf(VersionInfoOf(api)) != TierOf(VersionInfoOf(29))
  {
    assert RegularKeys(api) == RegularKeys(29);
  }

  lemma RegularKeyBands(api: int)
    ensures var ks := RegularKeys(api);
      && Camera in ks && FineLocation in ks && CoarseLocation in ks
      && (ReadMediaVideo in ks <==> api >= 33)
      && (ReadMediaImages in ks <==> api >= 33)
      && (ReadStorage in ks <==> api < 33)
      && (WriteStorage in ks <==> api < 29)
      && ManageStorage !in ks && ReadMediaAudio !in ks
      && |ks| == (if 29 <= api < 33 then 4 else 5)
  {
    var ks := RegularKeys(api);
    if api >= 33 {
      assert ks == [Camera, FineLocation, CoarseLocation, ReadMediaVideo, ReadMediaImages];
    } else if api >= 29 {
      assert ks == [Camera, FineLocation, CoarseLocation, ReadStorage];
    } else {
      assert ks == [Camera, FineLocation, CoarseLocation, ReadStorage, WriteStorage];
    }
  }

  lemma InRequired(api: int, k: Key)
    requires k != Unknown
    ensures NativeId(k) in RequiredPermissions(api) <==> k in RegularKeys(api)
  {
    IdsWellFormed(RegularKeys(api));
  }

  lemma IdsConcat(a: seq<Key>, b: seq<Key>)
    requires Unknown !in a && Unknown !in b
    ensures Ids(a + b) == Ids(a) + Ids(b)
  {
  }

  datatype SpecialPermission = SpecialPermission(
    permission: string, name: string, description: string, requiresSettings: bool)

  const AllFilesAccess := SpecialPermission(
    MANAGE_EXTERNAL_STORAGE, "All Files Access",
    "Allows the app to access all files on external storage", true)

  /** Permissions requested one at a time: all-files access from Android 11. */
  function SpecialPermissions(api: int): (r: seq<SpecialPermission>)
    ensures api >= 30 ==> r == [AllFilesAccess]
    ensures api < 30 ==> r == []
  {
    var specials := if api >= 30 then [AllFilesAccess] else [];
    FilterSpecial(specials)
  }

  function FilterSpecial(ss: seq<SpecialPermission>): (r: seq<SpecialPermission>)
    ensures forall s :: s in r <==> s in ss && IsValidPermission(s.permission)
    ensures (forall i :: 0 <= i < |ss| ==> IsValidPermission(ss[i].permission)) ==> r == ss
  {
    if |ss| == 0 then []
    else
      assert ss == [ss[0]] + ss[1..];
      (if IsValidPermission(ss[0].permission) then [ss[0]] else []) + FilterSpecial(ss[1..])
  }

  function SpecialIds(ss: seq<SpecialPermission>): (ids: seq<string>)
    ensures |ids| == |ss|
    ensures forall i :: 0 <= i < |ss| ==> ids[i] == ss[i].permission
  {
    seq(|ss|, i requires 0 <= i < |ss| => ss[i].permission)
  }

  /** The keys queried, in query order: the regular list, then all-files
      access from Android 11. */
  function QueriedKeys(api: int): (ks: seq<Key>)
    ensures Distinct(ks) && Unknown !in ks
  {
    RegularKeys(api) + (if api >= 30 then [ManageStorage] else [])
  }

  lemma QueriedIdsSplit(api: int)
    ensures RequiredPermissions(api) + SpecialIds(SpecialPermissions(api)) == Ids(QueriedKeys(api))
  {
    var extra := if api >= 30 then [ManageStorage] else [];
    IdsConcat(RegularKeys(api), extra);
    assert SpecialIds(SpecialPermissions(api)) == Ids(extra);
  }

  /** Every native id the engine queries, in query order. */
  function QueriedIds(api: int): (ids: seq<string>)
    ensures ids == Ids(QueriedKeys(api))
    ensures KeysDistinct(ids)
  {
    QueriedIdsSplit(api);
    IdsWellFormed(QueriedKeys(api));
    RequiredPermissions(api) + SpecialIds(SpecialPermissions(api))
  }

  // ---------------------------------------------------------------------------
  // Status objects and the provider oracle
  // ---------------------------------------------------------------------------

  datatype PermResult = Granted | Denied | Blocked | Unavailable

  /** The outcome of one `check` or `request` promise. */
  datatype Query = Answered(result: PermResult) | Rejected

  /** The outcome of one `requestMultiple` promise: a result per requested id. */
  datatype Batch = BatchAnswered(results: string -> PermResult) | BatchRejected

  datatype Failure = CheckFailed | RequestFailed

  /** `key -> granted`, in insertion order. */
  type Status = seq<(Key, bool)>

  /** A status value read in a boolean context: `undefined` is falsy. */
  predicate IsGranted(m: Status, k: Key) {
    Lookup(m, k) == Some(true)
  }

  function Settled(q: Query, fallback: PermResult): PermResult {
    if q.Answered? then q.result else fallback
  }

  /** `{ key(id): result === GRANTED }` for each pair, in order. */
  function StatusPairs(rs: seq<(string, PermResult)>): (ps: seq<(Key, bool)>)
    ensures |ps| == |rs|
    ensures forall i :: 0 <= i < |rs| ==> ps[i] == (PermissionKey(rs[i].0), rs[i].1 == Granted)
  {
    seq(|rs|, i requires 0 <= i < |rs| => (PermissionKey(rs[i].0), rs[i].1 == Granted))
  }

  function Answers(ids: seq<string>, f: string -> PermResult): (rs: seq<(string, PermResult)>)
    ensures |rs| == |ids|
    ensures forall i :: 0 <= i < |ids| ==> rs[i] == (ids[i], f(ids[i]))
  {
    seq(|ids|, i requires 0 <= i < |ids| => (ids[i], f(ids[i])))
  }

  /** `status[getPermissionKey(id)] = result === GRANTED` for each pair, in order. */
  function FoldStatus(rs: seq<(string, PermResult)>): Status {
    PutAll([], StatusPairs(rs))
  }

  /** Folding pairs whose ids carry distinct keys gives each key exactly its
      own answer, in the order the pairs came. */
  lemma FoldStatusDistinct(rs: seq<(string, PermResult)>)
    requires KeysDistinct(Keys(rs))
    ensures FoldStatus(rs) == StatusPairs(rs)
    ensures forall i :: 0 <= i < |rs| ==>
      Lookup(FoldStatus(rs), PermissionKey(rs[i].0)) == Some(rs[i].1 == Granted)
  {
    var ps := StatusPairs(rs);
    assert Keys(ps) == seq(|rs|, i requires 0 <= i < |rs| => PermissionKey(rs[i].0));
    PutAllFresh([], ps);
    forall i | 0 <= i < |rs|
      ensures Lookup(ps, PermissionKey(rs[i].0)) == Some(rs[i].1 == Granted)
    {
      LookupDistinct(ps, i);
    }
  }

  // ---------------------------------------------------------------------------
  // Satisfaction and requiredness (areRequiredPermissionsGranted, isPermissionRequired)
  // ---------------------------------------------------------------------------

  /** The mandatory set is satisfied: camera, either location, and the tier's storage. */
  predicate SatisfiedUnder(info: VersionInfo, m: Status) {
    && IsGranted(m, Camera)
    && (IsGranted(m, FineLocation) || IsGranted(m, CoarseLocation))
    && match TierOf(info)
       case GranularMedia => IsGranted(m, ReadMediaVideo) && IsGranted(m, ReadMediaImages)
       case ManageOrRead => IsGranted(m, ManageStorage) || IsGranted(m, ReadStorage)
       case ReadOnly => IsGranted(m, ReadStorage)
       case ReadWrite => IsGranted(m, ReadStorage) && IsGranted(m, WriteStorage)
  }

  /** areRequiredPermissionsGranted reads the device's own version. */
  predicate AreRequiredPermissionsGranted(api: int, m: Status) {
    SatisfiedUnder(VersionInfoOf(api), m)
  }

  /** The keys the satisfaction rule reads under a version. */
  function ReadKeys(info: VersionInfo): set<Key> {
    {Camera, FineLocation, CoarseLocation} +
    match TierOf(info)
    case GranularMedia => {ReadMediaVideo, ReadMediaImages}
    case ManageOrRead => {ManageStorage, ReadStorage}
    case ReadOnly => {ReadStorage}
    case ReadWrite => {ReadStorage, WriteStorage}
  }

  /** The verdict depends on nothing but the grant state of ReadKeys. */
  lemma SatisfactionReadsOnly(info: VersionInfo, m1: Status, m2: Status)
    requires forall k :: k in ReadKeys(info) ==> (IsGranted(m1, k) <==> IsGranted(m2, k))
    ensures SatisfiedUnder(info, m1) <==> SatisfiedUnder(info, m2)
  {
  }

  lemma CameraNecessary(info: VersionInfo, m: Status)
    requires !IsGranted(m, Camera)
    ensures !SatisfiedUnder(info, m)
  {
  }

  /** Granting more never withdraws satisfaction. */
  lemma SatisfiedMonotone(info: VersionInfo, m1: Status, m2: Status)
    requires forall k :: IsGranted(m1, k) ==> IsGranted(m2, k)
    ensures SatisfiedUnder(info, m1) ==> SatisfiedUnder(info, m2)
  {
  }

  /** isPermissionRequired: a function of key and version only. */
  predicate IsPermissionRequired(k: Key, info: VersionInfo) {
    if k == Camera || k == FineLocation || k == CoarseLocation then true
    else match TierOf(info)
      case GranularMedia => k == ReadMediaVideo || k == ReadMediaImages
      case ManageOrRead => k == ManageStorage || k == ReadStorage
      case ReadOnly => k == ReadStorage
      case ReadWrite => k == ReadStorage || k == WriteStorage
  }

  /** "Required" marks exactly the keys the satisfaction rule reads. */
  lemma RequiredAreReadKeys(k: Key, info: VersionInfo)
    ensures IsPermissionRequired(k, info) <==> k in ReadKeys(info)
  {
  }

  /** Granting every required key satisfies the mandatory set... */
  lemma RequiredSuffices(info: VersionInfo, m: Status)
    requires forall k :: IsPermissionRequired(k, info) ==> IsGranted(m, k)
    ensures SatisfiedUnder(info, m)
  {
    assert IsPermissionRequired(Camera, info);
    assert IsPermissionRequired(FineLocation, info);
    match TierOf(info)
    case GranularMedia =>
      assert IsPermissionRequired(ReadMediaVideo, info) && IsPermissionRequired(ReadMediaImages, info);
    case ManageOrRead =>
      assert IsPermissionRequired(ReadStorage, info);
    case ReadOnly =>
      assert IsPermissionRequired(ReadStorage, info);
    case ReadWrite =>
      assert IsPermissionRequired(ReadStorage, info) && IsPermissionRequired(WriteStorage, info);
  }

  /** ...but is not necessary: under every version a required key can be
      denied while the set is satisfied (approximate location is always
      required, yet precise location alone suffices). */
  lemma RequiredNotNecessary(info: VersionInfo)
    ensures var m := AllGrantedExcept(CoarseLocation);
      SatisfiedUnder(info, m) && IsPermissionRequired(CoarseLocation, info) && !IsGranted(m, CoarseLocation)
  {
    AllGrantedExceptLookup(CoarseLocation);
  }

  const AllKeys := [Camera, FineLocation, CoarseLocation, ReadStorage, WriteStorage,
                    ManageStorage, ReadMediaVideo, ReadMediaImages, ReadMediaAudio]

  /** A status object granting every known key but one. */
  function AllGrantedExcept(denied: Key): Status {
    seq(|AllKeys|, i requires 0 <= i < |AllKeys| => (AllKeys[i], AllKeys[i] != denied))
  }

  function KeyIndex(k: Key): (i: nat)
    requires k != Unknown
    ensures i < |AllKeys| && AllKeys[i] == k
  {
    match k
    case Camera => 0
    case FineLocation => 1
    case CoarseLocation => 2
    case ReadStorage => 3
    case WriteStorage => 4
    case ManageStorage => 5
    case ReadMediaVideo => 6
    case ReadMediaImages => 7
    case ReadMediaAudio => 8
  }

  lemma AllGrantedExceptLookup(denied: Key)
    ensures forall k :: k != denied && k != Unknown ==> IsGranted(AllGrantedExcept(denied), k)
    ensures !IsGranted(AllGrantedExcept(denied), denied)
  {
    forall k | k != Unknown
      ensures Lookup(AllGrantedExcept(denied), k) == Some(k != denied)
    {
      AllGrantedExceptAt(denied, k);
    }
    if denied == Unknown {
      assert Keys(AllGrantedExcept(denied)) == AllKeys;
    }
  }

  lemma AllGrantedExceptAt(denied: Key, k: Key)
    requires k != Unknown
    ensures Lookup(AllGrantedExcept(denied), k) == Some(k != denied)
  {
    var m := AllGrantedExcept(denied);
    assert Keys(m) == AllKeys;
    AllKeysDistinct();
    LookupDistinct(m, KeyIndex(k));
  }

  lemma AllKeysDistinct()
    ensures Distinct(AllKeys)
  {
  }

  // ---------------------------------------------------------------------------
  // Checking and requesting (checkAllPermissions, requestAllPermissions)
  // ---------------------------------------------------------------------------

  datatype CheckReport = CheckReport(permissions: Status, allGranted: bool, versionInfo: VersionInfo)

  datatype RequestReport = RequestReport(
    permissions: Status, results: seq<(string, PermResult)>, allGranted: bool)

  /** Every key the satisfaction rule reads under the device's version is queried. */
  lemma ReadKeysAreQueried(api: int)
    ensures forall k :: k in ReadKeys(VersionInfoOf(api)) ==> k in QueriedKeys(api)
  {
  }

  lemma KeysConcat<K, V>(a: seq<(K, V)>, b: seq<(K, V)>)
    ensures Keys(a + b) == Keys(a) + Keys(b)
  {
  }

  /** Answers for the regular ids from `regular`, then for the special ids
      from `special`. */
  function QueryAnswers(api: int, regular: string -> PermResult, special: string -> PermResult)
    : (rs: seq<(string, PermResult)>)
    ensures Keys(rs) == QueriedIds(api)
    ensures forall i :: 0 <= i < |rs| ==>
      rs[i].1 == (if i < |RequiredPermissions(api)| then regular(rs[i].0) else special(rs[i].0))
  {
    var ids := RequiredPermissions(api);
    var sids := SpecialIds(SpecialPermissions(api));
    assert ids + sids == QueriedIds(api);
    ConcatAnswers(ids, sids, regular, special);
    Answers(ids, regular) + Answers(sids, special)
  }

  lemma ConcatAnswers(a: seq<string>, b: seq<string>, f: string -> PermResult, g: string -> PermResult)
    ensures Keys(Answers(a, f) + Answers(b, g)) == a + b
    ensures var rs := Answers(a, f) + Answers(b, g);
      forall i :: 0 <= i < |rs| ==> rs[i].1 == (if i < |a| then f(rs[i].0) else g(rs[i].0))
  {
    AnswersKeys(a, f);
    AnswersKeys(b, g);
    KeysConcat(Answers(a, f), Answers(b, g));
  }

  lemma AnswersKeys(ids: seq<string>, f: string -> PermResult)
    ensures Keys(Answers(ids, f)) == ids
  {
  }

  /** Folding the answers of a query cycle: the status object has exactly
      the queried keys, in query order... */
  lemma FoldQueriedKeys(api: int, rs: seq<(string, PermResult)>)
    requires Keys(rs) == QueriedIds(api)
    ensures Keys(FoldStatus(rs)) == QueriedKeys(api)
  {
    FoldStatusDistinct(rs);
    IdsWellFormed(QueriedKeys(api));
  }

  /** ...each regular key holds its own answer... */
  lemma FoldRegular(api: int, rs: seq<(string, PermResult)>, p: string)
    requires Keys(rs) == QueriedIds(api)
    requires p in RequiredPermissions(api)
    ensures Lookup(FoldStatus(rs), PermissionKey(p)) == Some(Lookup(rs, p) == Some(Granted))
  {
    var i := RegularIndex(api, p);
    QueriedPrefix(api, rs, i);
    IdsWellFormed(QueriedKeys(api));
    FoldStatusDistinct(rs);
    LookupIs(rs, i, Granted);
  }

  function RegularIndex(api: int, p: string): (i: nat)
    requires p in RequiredPermissions(api)
    ensures i < |RequiredPermissions(api)| && RequiredPermissions(api)[i] == p
  {
    var regular := RequiredPermissions(api);
    var i :| 0 <= i < |regular| && regular[i] == p;
    i
  }

  lemma QueriedPrefix(api: int, rs: seq<(string, PermResult)>, i: nat)
    requires Keys(rs) == QueriedIds(api)
    requires i < |RequiredPermissions(api)|
    ensures i < |rs| && rs[i].0 == RequiredPermissions(api)[i]
  {
    assert Keys(rs)[i] == QueriedIds(api)[i];
  }

  /** ...and all-files access holds the special answer from Android 11 and is
      absent below it. */
  lemma FoldManage(api: int, rs: seq<(string, PermResult)>)
    requires Keys(rs) == QueriedIds(api)
    ensures api >= 30 ==> Lookup(FoldStatus(rs), ManageStorage) == Some(Lookup(rs, MANAGE_EXTERNAL_STORAGE) == Some(Granted))
    ensures api < 30 ==> Lookup(FoldStatus(rs), ManageStorage) == None
  {
    if api >= 30 {
      FoldManageQueried(api, rs);
    } else {
      FoldQueriedKeys(api, rs);
      RegularKeyBands(api);
    }
  }

  lemma FoldManageQueried(api: int, rs: seq<(string, PermResult)>)
    requires Keys(rs) == QueriedIds(api) && api >= 30
    ensures Lookup(FoldStatus(rs), ManageStorage) == Some(Lookup(rs, MANAGE_EXTERNAL_STORAGE) == Some(Granted))
  {
    FoldStatusDistinct(rs);
    var n := |RequiredPermissions(api)|;
    QueriedIdsSplit(api);
    assert Keys(rs)[n] == MANAGE_EXTERNAL_STORAGE;
    LookupDistinct(rs, n);
    KnownIds();
    assert PermissionKey(rs[n].0) == ManageStorage;
  }

  /** In a query cycle's answers each id reads back its own answer. */
  lemma LookupDistinctKeys(api: int, rs: seq<(string, PermResult)>, i: nat)
    requires Keys(rs) == QueriedIds(api) && i < |rs|
    ensures Lookup(rs, rs[i].0) == Some(rs[i].1)
  {
    IdsWellFormed(QueriedKeys(api));
    LookupDistinct(rs, i);
  }

  lemma QueryLookupRegular(api: int, regular: string -> PermResult, special: string -> PermResult, p: string)
    requires p in RequiredPermissions(api)
    ensures Lookup(QueryAnswers(api, regular, special), p) == Some(regular(p))
  {
    var rs := QueryAnswers(api, regular, special);
    var i := RegularIndex(api, p);
    QueriedPrefix(api, rs, i);
    LookupDistinctKeys(api, rs, i);
  }

  lemma QueryLookupManage(api: int, regular: string -> PermResult, special: string -> PermResult)
    requires api >= 30
    ensures Lookup(QueryAnswers(api, regular, special), MANAGE_EXTERNAL_STORAGE) == Some(special(MANAGE_EXTERNAL_STORAGE))
  {
    var rs := QueryAnswers(api, regular, special);
    var n := |RequiredPermissions(api)|;
    ManageQueriedAt(api);
    assert Keys(rs)[n] == MANAGE_EXTERNAL_STORAGE;
    LookupDistinctKeys(api, rs, n);
  }

  lemma ManageQueriedAt(api: int)
    requires api >= 30
    ensures |RequiredPermissions(api)| < |QueriedIds(api)|
    ensures QueriedIds(api)[|RequiredPermissions(api)|] == MANAGE_EXTERNAL_STORAGE
  {
    assert SpecialIds(SpecialPermissions(api)) == [MANAGE_EXTERNAL_STORAGE];
  }

  /** What one query cycle leaves in the status object: the queried keys in
      order, each regular key granted iff its regular answer is GRANTED,
      all-files access granted iff its special answer is GRANTED from
      Android 11 and absent below it. */
  lemma FoldQuery(api: int, regular: string -> PermResult, special: string -> PermResult)
    ensures var m := FoldStatus(QueryAnswers(api, regular, special));
      && Keys(m) == QueriedKeys(api)
      && (forall p :: p in RequiredPermissions(api) ==>
            Lookup(m, PermissionKey(p)) == Some(regular(p) == Granted))
      && (api >= 30 ==> Lookup(m, ManageStorage) == Some(special(MANAGE_EXTERNAL_STORAGE) == Granted))
      && (api < 30 ==> Lookup(m, ManageStorage) == None)
  {
    var rs := QueryAnswers(api, regular, special);
    FoldQueriedKeys(api, rs);
    FoldManage(api, rs);
    if api >= 30 {
      QueryLookupManage(api, regular, special);
    }
    forall p | p in RequiredPermissions(api)
      ensures Lookup(FoldStatus(rs), PermissionKey(p)) == Some(regular(p) == Granted)
    {
      FoldRegular(api, rs, p);
      QueryLookupRegular(api, regular, special, p);
    }
  }

  /** A settled promise, with `fallback` standing for a rejection. */
  function SettledOr(q: string -> Query, fallback: PermResult): string -> PermResult {
    p => Settled(q(p), fallback)
  }

  /** Whatever the fallback, a settled answer is GRANTED iff the promise
      resolved to GRANTED, as long as the fallback is not GRANTED. */
  lemma SettledGranted(q: string -> Query, fallback: PermResult, p: string)
    requires fallback != Granted
    ensures (SettledOr(q, fallback)(p) == Granted) == (q(p) == Answered(Granted))
  {
  }

  /** checkAllPermissions: a rejected regular check rejects the whole call;
      a rejected special check reads as UNAVAILABLE; a key is granted iff
      its answer is exactly GRANTED. */
  function CheckAll(api: int, check: string -> Query): (r: Result<CheckReport, Failure>)
    ensures r.Err? <==> exists p :: p in RequiredPermissions(api) && check(p).Rejected?
    ensures r.Ok? ==> r.value.versionInfo == VersionInfoOf(api)
    ensures r.Ok? ==> Keys(r.value.permissions) == QueriedKeys(api)
    ensures r.Ok? ==> forall p :: p in RequiredPermissions(api) ==>
      Lookup(r.value.permissions, PermissionKey(p)) == Some(check(p) == Answered(Granted))
    ensures r.Ok? && api >= 30 ==>
      Lookup(r.value.permissions, ManageStorage) == Some(check(MANAGE_EXTERNAL_STORAGE) == Answered(Granted))
    ensures r.Ok? && api < 30 ==> Lookup(r.value.permissions, ManageStorage) == None
    ensures r.Ok? ==> r.value.allGranted == AreRequiredPermissionsGranted(api, r.value.permissions)
  {
    if exists p :: p in RequiredPermissions(api) && check(p).Rejected? then Err(CheckFailed)
    else
      var status := FoldStatus(QueryAnswers(api, SettledOr(check, Denied), SettledOr(check, Unavailable)));
      FoldQuery(api, SettledOr(check, Denied), SettledOr(check, Unavailable));
      SettledGranted(check, Unavailable, MANAGE_EXTERNAL_STORAGE);
      assert forall p :: p in RequiredPermissions(api) ==>
        Lookup(status, PermissionKey(p)) == Some(check(p) == Answered(Granted)) by {
        forall p | p in RequiredPermissions(api)
          ensures Lookup(status, PermissionKey(p)) == Some(check(p) == Answered(Granted))
        {
          SettledGranted(check, Denied, p);
        }
      }
      Ok(CheckReport(status, AreRequiredPermissionsGranted(api, status), VersionInfoOf(api)))
  }

  // ---------------------------------------------------------------------------

  /** The special permissions requested one at a time; a rejected request is
      recorded as DENIED. The source branches on `requiresSettings` but both
      branches do the same, so there is one rule here. */
  function SpecialRequests(ss: seq<SpecialPermission>, request: string -> Query): seq<(string, PermResult)> {
    PutAll([], Answers(SpecialIds(ss), SettledOr(request, Denied)))
  }

  /** requestAllPermissions: a rejected batch rejects the whole call; special
      results are spread over the regular ones (`{...regular, ...special}`)
      before they are folded into keys. */
  function RequestAll(api: int, requestMultiple: seq<string> -> Batch, request: string -> Query)
    : (r: Result<RequestReport, Failure>)
    ensures r.Err? <==> requestMultiple(RequiredPermissions(api)).BatchRejected?
    ensures r.Ok? ==> Keys(r.value.results) == QueriedIds(api)
    ensures r.Ok? ==> Keys(r.value.permissions) == QueriedKeys(api)
    ensures r.Ok? ==> forall p :: p in RequiredPermissions(api) ==>
      Lookup(r.value.permissions, PermissionKey(p))
        == Some(requestMultiple(RequiredPermissions(api)).results(p) == Granted)
    ensures r.Ok? && api >= 30 ==>
      Lookup(r.value.permissions, ManageStorage) == Some(request(MANAGE_EXTERNAL_STORAGE) == Answered(Granted))
    ensures r.Ok? && api < 30 ==> Lookup(r.value.permissions, ManageStorage) == None
    ensures r.Ok? ==> r.value.allGranted == AreRequiredPermissionsGranted(api, r.value.permissions)
  {
    var regular := RequiredPermissions(api);
    var batch := requestMultiple(regular);
    if batch.BatchRejected? then Err(RequestFailed)
    else
      var all := PutAll(Answers(regular, batch.results), SpecialRequests(SpecialPermissions(api), request));
      SpreadIsAppend(api, batch.results, request);
      FoldQuery(api, batch.results, SettledOr(request, Denied));
      SettledGranted(request, Denied, MANAGE_EXTERNAL_STORAGE);
      var status := FoldStatus(all);
      Ok(RequestReport(status, all, AreRequiredPermissionsGranted(api, status)))
  }

  /** No special id is regular, so the spread just appends the special results. */
  lemma SpreadIsAppend(api: int, results: string -> PermResult, request: string -> Query)
    ensures PutAll(Answers(RequiredPermissions(api), results), SpecialRequests(SpecialPermissions(api), request))
      == QueryAnswers(api, results, SettledOr(request, Denied))
  {
    var ids := RequiredPermissions(api);
    var sids := SpecialIds(SpecialPermissions(api));
    var a := Answers(ids, results);
    var b := Answers(sids, SettledOr(request, Denied));
    AnswersKeys(ids, results);
    AnswersKeys(sids, SettledOr(request, Denied));
    SpecialsFresh(api);
    PutAllFresh([], b);
    PutAllFresh(a, b);
  }

  /** The special ids are few, distinct and none of them is regular. */
  lemma SpecialsFresh(api: int)
    ensures Distinct(SpecialIds(SpecialPermissions(api)))
    ensures forall k :: k in SpecialIds(SpecialPermissions(api)) ==> k !in RequiredPermissions(api)
  {
    if api >= 30 {
      assert SpecialIds(SpecialPermissions(api)) == [MANAGE_EXTERNAL_STORAGE];
      RequiredPermissionBands(api);
    }
  }
}
