/** The decision helpers of src/screens/EnhancedPermissionScreen.js: which
    denied permissions the alert names, what it says and offers, how a row
    and the version card render, and what one check or request cycle does
    to the screen's state. React state is a value of ScreenState; the
    alerts, the navigation and the timers are returned as values. */
module PermissionScreen {
  import opened Results
  import opened Text
  import opened OrderedMap
  import opened Permissions
  import opened Details
  import opened Alerts

  // ---------------------------------------------------------------------------
  // handlePermissionDenied
  // ---------------------------------------------------------------------------

  /** The keys of a status object, in key order, that are false and required. */
  function DeniedKeys(m: Status, info: VersionInfo): (ks: seq<Key>)
    ensures forall k :: k in ks ==> IsPermissionRequired(k, info)
    ensures |ks| <= |m|
    decreases |m|
  {
    if |m| == 0 then []
    else
      (if !m[0].1 && IsPermissionRequired(m[0].0, info) then [m[0].0] else [])
        + DeniedKeys(m[1..], info)
  }

  /** A key is listed iff the object holds it as false and it is required;
      with distinct keys that is its looked-up value. */
  lemma {:induction false} DeniedKeysExact(m: Status, info: VersionInfo, k: Key)
    requires Distinct(Keys(m))
    ensures k in DeniedKeys(m, info) <==> Lookup(m, k) == Some(false) && IsPermissionRequired(k, info)
    decreases |m|
  {
    if |m| > 0 {
      KeysTail(m);
      DistinctTail(m);
      DeniedKeysExact(m[1..], info, k);
      if m[0].0 == k {
        NotInKeysLookup(m[1..], k);
        NotInDenied(m[1..], info, k);
      }
    }
  }

  lemma NotInKeysLookup(m: Status, k: Key)
    requires k !in Keys(m)
    ensures Lookup(m, k) == None
  {
  }

  lemma {:induction false} NotInDenied(m: Status, info: VersionInfo, k: Key)
    requires k !in Keys(m)
    ensures k !in DeniedKeys(m, info)
    decreases |m|
  {
    if |m| > 0 {
      KeysTail(m);
      assert m[0].0 == Keys(m)[0];
      NotInDenied(m[1..], info, k);
    }
  }

  function DisplayNames(ks: seq<Key>): (names: seq<string>)
    ensures |names| == |ks|
    ensures forall i :: 0 <= i < |ks| ==> names[i] == DisplayName(ks[i])
  {
    seq(|ks|, i requires 0 <= i < |ks| => DisplayName(ks[i]))
  }

  const DeniedHeader := "The following permissions are required:\n\n"
  const ManualSetupNote := "\n\nSome permissions may require manual setup in Settings."

  /** The alert names the denied required permissions, adds the manual-setup
      sentence from Android 11 (tested as 11+ or 13+) and offers Settings
      from Android 11. It reads the version stored on the screen, not the
      one of the request that was just answered. */
  function PermissionDeniedAlert(m: Status, info: VersionInfo): (a: Alert)
    ensures a.title == "Permissions Required"
    ensures |a.message| >= |DeniedHeader| && a.message[..|DeniedHeader|] == DeniedHeader
    ensures |a.actions| >= 1 && a.actions[0] == "OK"
    ensures "Open Settings" in a.actions <==> info.isAndroid11Plus
  {
    var names := DisplayNames(DeniedKeys(m, info));
    var note := if info.isAndroid11Plus || info.isAndroid13Plus then ManualSetupNote else "";
    var actions := ["OK"] + (if info.isAndroid11Plus then ["Open Settings"] else []);
    Alert("Permissions Required", DeniedHeader + Join(names, "\n") + note, actions)
  }

  /** With nested flags the "11+ or 13+" test is the 11+ test: the note is
      there iff Settings is offered. */
  lemma ManualSetupIffSettings(m: Status, info: VersionInfo)
    requires FlagsNested(info)
    ensures var a := PermissionDeniedAlert(m, info);
      var body := DeniedHeader + Join(DisplayNames(DeniedKeys(m, info)), "\n");
      && ((info.isAndroid11Plus || info.isAndroid13Plus) <==> info.isAndroid11Plus)
      && (info.isAndroid11Plus ==> a.message == body + ManualSetupNote)
      && (!info.isAndroid11Plus ==> a.message == body)
  {
  }

  // ---------------------------------------------------------------------------
  // renderPermissionItem
  // ---------------------------------------------------------------------------

  datatype ItemStatus = GrantedItem | RequiredItem | OptionalItem

  /** The first case that matches: granted, else required, else optional. */
  function Classify(d: Detail): (s: ItemStatus)
    ensures s == GrantedItem <==> d.granted
    ensures s == RequiredItem <==> !d.granted && d.required
    ensures s == OptionalItem <==> !d.granted && !d.required
  {
    if d.granted then GrantedItem else if d.required then RequiredItem else OptionalItem
  }

  function StatusColor(s: ItemStatus): string {
    match s
    case GrantedItem => "#4CAF50"
    case RequiredItem => "#F44336"
    case OptionalItem => "#FF9800"
  }

  function StatusIcon(s: ItemStatus): string {
    match s
    case GrantedItem => "\U{2705}"
    case RequiredItem => "\U{274C}"
    case OptionalItem => "\U{26A0}\U{FE0F}"
  }

  function StatusText(s: ItemStatus): string {
    match s
    case GrantedItem => "Granted"
    case RequiredItem => "Required"
    case OptionalItem => "Optional"
  }

  /** The rendered parts of one row. */
  datatype Item = Item(color: string, icon: string, statusText: string, description: string, requiredNote: bool)

  function RenderItem(d: Detail): (it: Item)
    ensures it.requiredNote <==> Classify(d) == RequiredItem
    ensures it.statusText == StatusText(Classify(d)) && it.color == StatusColor(Classify(d))
  {
    var s := Classify(d);
    Item(StatusColor(s), StatusIcon(s), StatusText(s), d.description, d.required && !d.granted)
  }

  /** The three classes render distinguishably: the label determines the class. */
  lemma StatusTextInjective(s: ItemStatus, t: ItemStatus)
    requires StatusText(s) == StatusText(t)
    ensures s == t
  {
    match s
    case GrantedItem => assert StatusText(t)[0] == 'G';
    case RequiredItem => assert StatusText(t)[0] == 'R';
    case OptionalItem => assert StatusText(t)[0] == 'O';
  }

  // ---------------------------------------------------------------------------
  // renderVersionInfo
  // ---------------------------------------------------------------------------

  const GranularText := "Uses granular media permissions for better privacy"
  const ManualText := "May require manual setup for storage access"
  const ScopedText := "Uses scoped storage for better security"
  const TraditionalText := "Uses traditional permission model"

  /** The card: nothing for a falsy version (missing or 0); otherwise the
      title and every band sentence whose condition holds, in source order. */
  datatype VersionCard = VersionCard(title: string, texts: seq<string>)

  function RenderVersionInfo(info: VersionInfo): (c: Option<VersionCard>)
    ensures c.None? <==> info.version == None || info.version == Some(0)
    ensures c.Some? ==> c.value.title == "Android " + IntToString(info.version.value)
  {
    if info.version == None || info.version == Some(0) then None
    else
      Some(VersionCard("Android " + IntToString(info.version.value),
        (if info.isAndroid13Plus then [GranularText] else [])
        + (if info.isAndroid11Plus && !info.isAndroid13Plus then [ManualText] else [])
        + (if info.isAndroid10Plus && !info.isAndroid11Plus then [ScopedText] else [])
        + (if !info.isAndroid10Plus then [TraditionalText] else [])))
  }

  /** The sentence for a storage tier. */
  function TierText(t: StorageTier): string {
    match t
    case GranularMedia => GranularText
    case ManageOrRead => ManualText
    case ReadOnly => ScopedText
    case ReadWrite => TraditionalText
  }

  /** With nested flags exactly one sentence renders, the one of the tier the
      satisfaction rule applies. */
  lemma VersionCardOneBand(info: VersionInfo)
    requires FlagsNested(info)
    requires RenderVersionInfo(info).Some?
    ensures RenderVersionInfo(info).value.texts == [TierText(TierOf(info))]
  {
  }

  /** On a device, the card always shows, with the sentence of its API band. */
  lemma DeviceVersionCard(api: int)
    requires api != 0
    ensures RenderVersionInfo(VersionInfoOf(api)).Some?
    ensures api >= 33 ==> RenderVersionInfo(VersionInfoOf(api)).value.texts == [GranularText]
    ensures 30 <= api < 33 ==> RenderVersionInfo(VersionInfoOf(api)).value.texts == [ManualText]
    ensures api == 29 ==> RenderVersionInfo(VersionInfoOf(api)).value.texts == [ScopedText]
    ensures api < 29 ==> RenderVersionInfo(VersionInfoOf(api)).value.texts == [TraditionalText]
  {
    FlagsMonotone(api, api);
    VersionCardOneBand(VersionInfoOf(api));
  }

  // ---------------------------------------------------------------------------
  // checkPermissions and requestPermissions
  // ---------------------------------------------------------------------------

  datatype ScreenState = ScreenState(
    permissionStatus: Status,
    versionInfo: VersionInfo,
    allGranted: bool,
    loading: bool,
    requesting: bool,
    details: seq<Detail>)

  /** The state the screen mounts with. */
  const InitialScreen := ScreenState([], EmptyVersionInfo, false, true, false, [])

  /** What a cycle asks of the outside world: an alert, and a navigation to
      the video list after a delay in milliseconds. */
  datatype Effects = Effects(alert: Option<Alert>, navigateAfter: Option<nat>)

  const CheckErrorAlert := Alert("Error", "Failed to check permissions. Please try again.", [])
  const RequestErrorAlert := Alert("Error", "Failed to request permissions. Please try again.", [])
  const SuccessAlert := Alert("Success! \U{1F389}",
    "All required permissions have been granted. You can now use the app.", ["Continue"])

  /** checkPermissions: a successful check stores the report and its
      details and schedules the video list after 1.5 s iff all is granted;
      a failed one only alerts. Loading ends false either way. */
  function CheckPermissions(s: ScreenState, api: int, check: string -> Query): (out: (ScreenState, Effects))
    ensures !out.0.loading && out.0.requesting == s.requesting
    ensures out.1.navigateAfter.Some? <==> CheckAll(api, check).Ok? && CheckAll(api, check).value.allGranted
    ensures out.1.navigateAfter.Some? ==> out.1.navigateAfter.value == 1500
    ensures out.1.alert.Some? <==> CheckAll(api, check).Err?
    ensures CheckAll(api, check).Ok? ==> out.0.versionInfo == VersionInfoOf(api)
    ensures CheckAll(api, check).Ok? ==>
      var report := CheckAll(api, check).value;
      && out.0.permissionStatus == report.permissions
      && out.0.allGranted == report.allGranted
      && out.0.details == DetailedPermissionInfo(api, report.permissions)
    ensures CheckAll(api, check).Err? ==> out.0 == s.(loading := false)
  {
    match CheckAll(api, check)
    case Err(_) => (s.(loading := false), Effects(Some(CheckErrorAlert), None))
    case Ok(report) =>
      var s' := s.(permissionStatus := report.permissions, versionInfo := report.versionInfo,
                   allGranted := report.allGranted,
                   details := DetailedPermissionInfo(api, report.permissions), loading := false);
      (s', Effects(None, if report.allGranted then Some(1500) else None))
  }

  /** The screen's "all granted" flag after a successful check is exactly the
      satisfaction rule on the device's version. */
  lemma CheckStoresVerdict(s: ScreenState, api: int, check: string -> Query)
    requires CheckAll(api, check).Ok?
    ensures var out := CheckPermissions(s, api, check);
      out.0.allGranted == AreRequiredPermissionsGranted(api, out.0.permissionStatus)
      && Keys(out.0.permissionStatus) == QueriedKeys(api)
  {
  }

  /** requestPermissions: a successful request stores the statuses and
      details (not the version) and either congratulates or names what is
      missing; requesting ends false either way. */
  function RequestPermissions(s: ScreenState, api: int, requestMultiple: seq<string> -> Batch,
                              request: string -> Query): (out: (ScreenState, Effects))
    ensures !out.0.requesting && out.0.loading == s.loading
    ensures out.0.versionInfo == s.versionInfo
    ensures out.1.navigateAfter == None
    ensures RequestAll(api, requestMultiple, request).Err? ==>
      out.0 == s.(requesting := false) && out.1.alert == Some(RequestErrorAlert)
    ensures RequestAll(api, requestMultiple, request).Ok? ==>
      var report := RequestAll(api, requestMultiple, request).value;
      && out.0.permissionStatus == report.permissions
      && out.0.allGranted == report.allGranted
      && out.0.details == DetailedPermissionInfo(api, report.permissions)
    ensures RequestAll(api, requestMultiple, request).Ok? ==>
      out.1.alert == Some(if RequestAll(api, requestMultiple, request).value.allGranted then SuccessAlert
                          else PermissionDeniedAlert(RequestAll(api, requestMultiple, request).value.permissions, s.versionInfo))
  {
    match RequestAll(api, requestMultiple, request)
    case Err(_) => (s.(requesting := false), Effects(Some(RequestErrorAlert), None))
    case Ok(report) =>
      var s' := s.(permissionStatus := report.permissions, allGranted := report.allGranted,
                   details := DetailedPermissionInfo(api, report.permissions), requesting := false);
      var alert := if report.allGranted then SuccessAlert
                   else PermissionDeniedAlert(report.permissions, s.versionInfo);
      (s', Effects(Some(alert), None))
  }

  /** After a check on the same device, the denied alert of a failed request
      names exactly the required keys the request left ungranted. */
  lemma RequestAfterCheckNamesDenied(s: ScreenState, api: int, check: string -> Query,
                                     requestMultiple: seq<string> -> Batch, request: string -> Query, k: Key)
    requires CheckAll(api, check).Ok?
    requires RequestAll(api, requestMultiple, request).Ok?
    ensures var checked := CheckPermissions(s, api, check).0;
      var m := RequestAll(api, requestMultiple, request).value.permissions;
      (k in DeniedKeys(m, checked.versionInfo) <==>
         Lookup(m, k) == Some(false) && IsPermissionRequired(k, VersionInfoOf(api)))
  {
    var m := RequestAll(api, requestMultiple, request).value.permissions;
    QueriedKeysDistinct(api);
    DeniedKeysExact(m, VersionInfoOf(api), k);
  }

  lemma QueriedKeysDistinct(api: int)
    ensures Distinct(QueriedKeys(api))
  {
  }

  /** Before any check the stored version is the empty object, so every
      storage key is judged by the legacy read-and-write rule, whatever the
      device. */
  lemma DeniedBeforeCheck(m: Status, k: Key)
    requires Distinct(Keys(m))
    ensures k in DeniedKeys(m, InitialScreen.versionInfo)
      <==> Lookup(m, k) == Some(false)
           && k in {Camera, FineLocation, CoarseLocation, ReadStorage, WriteStorage}
  {
    DeniedKeysExact(m, EmptyVersionInfo, k);
  }
}
