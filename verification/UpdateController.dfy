/**
 * The desktop update controller: pure reducers (apps/desktop/src/updateMachine.ts:9-166,
 * updateState.ts:3-29), channels (updateChannels.ts:3-18), and the guarded actions and updater
 * events that drive them (apps/desktop/src/main.ts:689-716, 1195-1316, 1363-1429, 1904-1939, 2226-2228).
 *
 * An asynchronous action is a start step and a settling step; anything may happen between.
 */
module UpdateController {
  import opened Prelude
  import opened Text

  datatype Channel = Latest | Nightly

  datatype Status = Disabled | Idle | Checking | UpToDate | Available | Downloading | Downloaded | Failed

  datatype Context = CheckContext | DownloadContext | InstallContext

  datatype UpdateState =
    UpdateState(enabled: bool, status: Status, channel: Channel, availableVersion: Option<string>,
                downloadedVersion: Option<string>, downloadPercent: Option<real>, checkedAt: Option<string>,
                message: Option<string>, errorContext: Option<Context>, canRetry: bool)

  // ----- channels -----

  function DigitsFrom(s: string, i: nat): nat
    requires i <= |s|
  {
    if i > 0 && IsDigit(s[i - 1]) then DigitsFrom(s, i - 1) else i
  }

  /** Ends in "-nightly.", eight digits, a point and digits. */
  predicate IsNightlyVersion(version: string) {
    var d := DigitsFrom(version, |version|);
    && d < |version| && d >= 18 && version[d - 1] == '.'
    && (forall k :: d - 9 <= k < d - 1 ==> IsDigit(version[k]))
    && version[d - 18..d - 9] == "-nightly."
  }

  lemma {:induction false} DigitsFromIs(s: string, i: nat, d: nat)
    requires d <= i <= |s| && (forall k :: d <= k < i ==> IsDigit(s[k])) && (d > 0 ==> !IsDigit(s[d - 1]))
    ensures DigitsFrom(s, i) == d
  {
    if d < i {
      DigitsFromIs(s, i - 1, d);
    }
  }

  lemma {:induction false} DigitsFromHolds(s: string, i: nat)
    requires i <= |s|
    ensures var d := DigitsFrom(s, i);
      d <= i && (forall k :: d <= k < i ==> IsDigit(s[k])) && (d > 0 ==> !IsDigit(s[d - 1]))
  {
    if i > 0 && IsDigit(s[i - 1]) {
      DigitsFromHolds(s, i - 1);
    }
  }

  function NightlyVersion(head: string, date: string, run: string): string {
    head + "-nightly." + date + "." + run
  }

  /** Versions of that form are nightly ones, and only they. */
  lemma NightlyVersionReads(head: string, date: string, run: string)
    requires AllDigits(date) && |date| == 8 && AllDigits(run) && run != ""
    ensures IsNightlyVersion(NightlyVersion(head, date, run))
  {
    var v := NightlyVersion(head, date, run);
    var d := |v| - |run|;
    assert Has(v, 0, v);
    HasConcat(v, 0, head + "-nightly." + date + ".", run);
    HasConcat(v, 0, head + "-nightly." + date, ".");
    HasConcat(v, 0, head + "-nightly.", date);
    HasConcat(v, 0, head, "-nightly.");
    HasChars(v, d - 1, ".");
    DigitsAt(v, d, run);
    DigitsAt(v, d - 9, date);
    DigitsFromIs(v, |v|, d);
  }

  lemma DigitsAt(s: string, i: nat, digits: string)
    requires Has(s, i, digits) && AllDigits(digits)
    ensures forall k :: i <= k < i + |digits| ==> IsDigit(s[k])
  {
    HasChars(s, i, digits);
    forall k | i <= k < i + |digits| ensures IsDigit(s[k]) {
      assert s[i + (k - i)] == digits[k - i];
    }
  }

  lemma OnlyNightlyVersions(version: string) returns (head: string, date: string, run: string)
    requires IsNightlyVersion(version)
    ensures NightlyFormOf(version, head, date, run)
  {
    var d := DigitsFrom(version, |version|);
    DigitsFromHolds(version, |version|);
    head, date, run := version[..d - 18], version[d - 9..d - 1], version[d..];
    assert version == version[..d - 18] + version[d - 18..d - 9] + version[d - 9..d - 1] + [version[d - 1]] + version[d..];
  }

  function DefaultChannel(version: string): Channel {
    if IsNightlyVersion(version) then Nightly else Latest
  }

  /** A version belongs to one channel: the nightly one exactly if it has the form of a nightly version. */
  lemma BelongsToOneChannel(version: string)
    ensures SourceMembership(version, Nightly) <==> NightlyForm(version)
    ensures SourceMembership(version, Latest) <==> !NightlyForm(version)
  {
    if IsNightlyVersion(version) {
      var head, date, run := OnlyNightlyVersions(version);
      assert NightlyFormOf(version, head, date, run);
    }
    if head, date, run :| NightlyFormOf(version, head, date, run) {
      NightlyVersionReads(head, date, run);
    }
  }

  ghost predicate NightlyForm(version: string) {
    exists head, date, run :: NightlyFormOf(version, head, date, run)
  }

  ghost predicate NightlyFormOf(version: string, head: string, date: string, run: string) {
    AllDigits(date) && |date| == 8 && AllDigits(run) && run != "" && version == NightlyVersion(head, date, run)
  }

  // Whether a version belongs to a channel.
  type Membership = (string, Channel) -> bool

  predicate SourceMembership(version: string, channel: Channel) {
    DefaultChannel(version) == channel
  }

  // ----- reducers -----

  function BaseState(channel: Channel, enabled: bool): UpdateState {
    UpdateState(enabled, if enabled then Idle else Disabled, channel, None, None, None, None, None, None, false)
  }

  function OnCheckStart(s: UpdateState, now: string): UpdateState {
    s.(status := Checking, checkedAt := Some(now), message := None, downloadPercent := None, errorContext := None, canRetry := false)
  }

  function OnCheckFailure(s: UpdateState, message: string, now: string): UpdateState {
    s.(status := Failed, message := Some(message), checkedAt := Some(now), downloadPercent := None,
       errorContext := Some(CheckContext), canRetry := true)
  }

  function OnUpdateAvailable(s: UpdateState, version: string, now: string): UpdateState {
    s.(status := Available, availableVersion := Some(version), downloadedVersion := None, downloadPercent := None,
       checkedAt := Some(now), message := None, errorContext := None, canRetry := false)
  }

  function OnNoUpdate(s: UpdateState, now: string): UpdateState {
    s.(status := UpToDate, availableVersion := None, downloadedVersion := None, downloadPercent := None,
       checkedAt := Some(now), message := None, errorContext := None, canRetry := false)
  }

  function OnDownloadStart(s: UpdateState): UpdateState {
    s.(status := Downloading, downloadPercent := Some(0.0), message := None, errorContext := None, canRetry := false)
  }

  function StatusAfterDownloadFailure(s: UpdateState): Status {
    if s.availableVersion.Some? && s.availableVersion.value != "" then Available else Failed
  }

  function OnDownloadFailure(s: UpdateState, message: string): UpdateState {
    s.(status := StatusAfterDownloadFailure(s), message := Some(message), downloadPercent := None,
       errorContext := Some(DownloadContext), canRetry := s.availableVersion.Some?)
  }

  function OnDownloadProgress(s: UpdateState, percent: real): UpdateState {
    s.(status := Downloading, downloadPercent := Some(percent), message := None, errorContext := None, canRetry := false)
  }

  function OnDownloadComplete(s: UpdateState, version: string): UpdateState {
    s.(status := Downloaded, availableVersion := Some(version), downloadedVersion := Some(version),
       downloadPercent := Some(100.0), message := None, errorContext := None, canRetry := true)
  }

  function OnInstallFailure(s: UpdateState, message: string): UpdateState {
    s.(status := Downloaded, message := Some(message), errorContext := Some(InstallContext), canRetry := true)
  }

  function Tenth(percent: real): int {
    (percent / 10.0).Floor
  }

  predicate ShouldBroadcast(s: UpdateState, next: real) {
    s.status != Downloading || s.downloadPercent.None?
    || Tenth(next) != Tenth(s.downloadPercent.value) || next == 100.0
  }

  /** What is shown of a reported percent. */
  predicate Shows(s: UpdateState, percent: real) {
    && s.status == Downloading && s.downloadPercent.Some?
    && Tenth(s.downloadPercent.value) == Tenth(percent)
    && (percent == 100.0 ==> s.downloadPercent == Some(100.0))
  }

  // ----- the controller's variables, and its handlers as functions -----

  datatype Vars = Vars(s: UpdateState, check: bool, download: bool, install: bool, quitting: bool, configured: bool)

  predicate AcceptsCheck(v: Vars) {
    !v.quitting && v.configured && !v.check && v.s.status != Downloading && v.s.status != Downloaded
  }

  function CheckStarted(v: Vars, now: string): Vars {
    if AcceptsCheck(v) then v.(check := true, s := OnCheckStart(v.s, now)) else v
  }

  function CheckSettled(v: Vars, failure: Option<string>, now: string): Vars {
    v.(check := false, s := if failure.Some? then OnCheckFailure(v.s, failure.value, now) else v.s)
  }

  predicate AcceptsDownload(v: Vars) {
    v.configured && !v.download && v.s.status == Available
  }

  function DownloadStarted(v: Vars): Vars {
    if AcceptsDownload(v) then v.(download := true, s := OnDownloadStart(v.s)) else v
  }

  function DownloadSettled(v: Vars, failure: Option<string>): Vars {
    v.(download := false, s := if failure.Some? then OnDownloadFailure(v.s, failure.value) else v.s)
  }

  predicate AcceptsInstall(v: Vars) {
    !v.quitting && v.configured && v.s.status == Downloaded
  }

  function InstallStarted(v: Vars): Vars {
    if AcceptsInstall(v) then v.(quitting := true, install := true) else v
  }

  function InstallThrew(v: Vars, message: string): Vars {
    v.(install := false, quitting := false, s := OnInstallFailure(v.s, message))
  }

  function AvailableReported(v: Vars, belongs: Membership, version: string, now: string): Vars {
    v.(s := if belongs(version, v.s.channel) then OnUpdateAvailable(v.s, version, now) else OnNoUpdate(v.s, now))
  }

  function NoneReported(v: Vars, now: string): Vars {
    v.(s := OnNoUpdate(v.s, now))
  }

  function ErrorRaised(v: Vars, message: string, now: string): Vars {
    if v.install then InstallThrew(v, message)
    else if !v.check && !v.download then
      v.(s := v.s.(status := Failed, message := Some(message), checkedAt := Some(now), downloadPercent := None,
                   canRetry := v.s.availableVersion.Some? || v.s.downloadedVersion.Some?))
    else v
  }

  function ProgressReported(v: Vars, percent: real): Vars {
    if ShouldBroadcast(v.s, percent) || v.s.message.Some? then v.(s := OnDownloadProgress(v.s, percent)) else v
  }

  function DownloadReported(v: Vars, version: string): Vars {
    v.(s := OnDownloadComplete(v.s, version))
  }

  predicate AcceptsChannel(v: Vars) {
    !v.check && !v.download && !v.install
  }

  /** A new channel starts over, and checks at once where it can. */
  function ChannelSet(v: Vars, channel: Channel, enabled: bool, now: string): Vars {
    if !AcceptsChannel(v) || channel == v.s.channel then v
    else
      var reset := v.(s := BaseState(channel, enabled));
      if enabled && v.configured then CheckStarted(reset, now) else reset
  }

  // ----- runs -----

  // The controller in its environment: whether the check in flight has reported, the version
  // that the accepted download is of, and how many install attempts have not settled.
  datatype World = World(v: Vars, reported: bool, version: string, attempts: nat)

  datatype Action =
    | StartCheck(now: string)
    | SettleCheck(failure: Option<string>, now: string)
    | ReportAvailable(version: string, now: string)
    | ReportNone(now: string)
    | StartDownload
    | ReportProgress(percent: real)
    | ReportDownloaded(version: string)
    | SettleDownload(failure: Option<string>)
    | StartInstall
    | HandOffInstall
    | ThrowInstall(message: string)
    | RaiseError(message: string, now: string)
    | SetChannel(channel: Channel, enabled: bool, now: string)
    | Quit
    | BeforeQuit

  /** What the updater is trusted with: a check reports at most once and fails only unreported;
      progress and completion belong to the accepted download and its version. */
  predicate Possible(w: World, a: Action) {
    match a
    case SettleCheck(failure, _) => w.v.check && (failure.Some? ==> !w.reported)
    case ReportAvailable(_, _) => w.v.check && !w.reported
    case ReportNone(_) => w.v.check && !w.reported
    case ReportProgress(_) => w.v.download
    case ReportDownloaded(version) => w.v.download && version == w.version
    case SettleDownload(_) => w.v.download
    case HandOffInstall => w.attempts > 0
    case ThrowInstall(_) => w.attempts > 0
    case RaiseError(_, _) => w.v.configured
    case _ => true
  }

  function VersionOf(s: UpdateState): string {
    if s.availableVersion.Some? then s.availableVersion.value else ""
  }

  function Step(w: World, belongs: Membership, a: Action): World {
    match a
    case StartCheck(now) =>
      if AcceptsCheck(w.v) then w.(v := CheckStarted(w.v, now), reported := false) else w
    case SettleCheck(failure, now) => w.(v := CheckSettled(w.v, failure, now))
    case ReportAvailable(version, now) => w.(v := AvailableReported(w.v, belongs, version, now), reported := true)
    case ReportNone(now) => w.(v := NoneReported(w.v, now), reported := true)
    case StartDownload =>
      if AcceptsDownload(w.v) then w.(v := DownloadStarted(w.v), version := VersionOf(w.v.s)) else w
    case ReportProgress(percent) => w.(v := ProgressReported(w.v, percent))
    case ReportDownloaded(version) => w.(v := DownloadReported(w.v, version))
    case SettleDownload(failure) => w.(v := DownloadSettled(w.v, failure))
    case StartInstall =>
      if AcceptsInstall(w.v) then w.(v := InstallStarted(w.v), attempts := w.attempts + 1) else w
    case HandOffInstall => if w.attempts > 0 then w.(attempts := w.attempts - 1) else w
    case ThrowInstall(message) =>
      if w.attempts > 0 then w.(v := InstallThrew(w.v, message), attempts := w.attempts - 1) else w
    case RaiseError(message, now) => w.(v := ErrorRaised(w.v, message, now))
    case SetChannel(channel, enabled, now) =>
      var next := ChannelSet(w.v, channel, enabled, now);
      World(next, if next.check && !w.v.check then false else w.reported, w.version, w.attempts)
    case Quit => w.(v := w.v.(quitting := true))
    case BeforeQuit => w.(v := w.v.(quitting := true, install := false))
  }

  function Start(channel: Channel, enabled: bool): World {
    World(Vars(BaseState(channel, enabled), false, false, false, false, enabled), false, "", 0)
  }

  function Run(w: World, belongs: Membership, actions: seq<Action>): World {
    if actions == [] then w
    else Step(Run(w, belongs, actions[..|actions| - 1]), belongs, actions[|actions| - 1])
  }

  ghost predicate PossibleRun(w: World, belongs: Membership, actions: seq<Action>) {
    actions == []
    || (PossibleRun(w, belongs, actions[..|actions| - 1])
        && Possible(Run(w, belongs, actions[..|actions| - 1]), actions[|actions| - 1]))
  }

  /** What a user of the state may rely on. */
  ghost predicate Sound(s: UpdateState, belongs: Membership) {
    && (s.downloadedVersion.Some? ==> s.downloadedVersion == s.availableVersion)
    && (s.availableVersion.Some? ==> belongs(s.availableVersion.value, s.channel))
    && (s.downloadPercent.Some? ==> s.status == Downloading || s.status == Downloaded)
    && (s.status == Available || s.status == Downloading ==> s.availableVersion.Some?)
    && (s.status == UpToDate ==> s.availableVersion.None?)
    && (s.errorContext.Some? || s.status == Failed ==> s.message.Some?)
    && (s.message.Some? || s.canRetry ==> s.status == Failed || s.status == Available || s.status == Downloaded)
    && (s.status == Downloaded ==> s.canRetry)
  }

  ghost predicate Inv(w: World, belongs: Membership) {
    && Sound(w.v.s, belongs)
    && (w.v.check && !w.reported ==> !w.v.download && (w.v.s.status == Checking || w.v.s.status == Downloaded))
    && (w.v.download ==> w.v.s.availableVersion == Some(w.version))
    && (w.v.download ==> w.v.s.status == Downloading || w.v.s.status == Downloaded)
  }

  lemma CheckStepKeepsInv(w: World, belongs: Membership, a: Action)
    requires Inv(w, belongs) && Possible(w, a)
    requires a.StartCheck? || a.SettleCheck? || a.ReportAvailable? || a.ReportNone? || a.SetChannel?
    ensures Inv(Step(w, belongs, a), belongs)
  {
  }

  lemma DownloadStepKeepsInv(w: World, belongs: Membership, a: Action)
    requires Inv(w, belongs) && Possible(w, a)
    requires a.StartDownload? || a.ReportProgress? || a.ReportDownloaded? || a.SettleDownload?
    ensures Inv(Step(w, belongs, a), belongs)
  {
  }

  lemma StepKeepsInv(w: World, belongs: Membership, a: Action)
    requires Inv(w, belongs) && Possible(w, a)
    ensures Inv(Step(w, belongs, a), belongs)
  {
    if a.StartCheck? || a.SettleCheck? || a.ReportAvailable? || a.ReportNone? || a.SetChannel? {
      CheckStepKeepsInv(w, belongs, a);
    } else if a.StartDownload? || a.ReportProgress? || a.ReportDownloaded? || a.SettleDownload? {
      DownloadStepKeepsInv(w, belongs, a);
    }
  }

  /** In every possible run a downloaded version is the available one, an available version
      belongs to the selected channel, a percent is shown only while downloading or
      downloaded, what is available or being downloaded has a version, a failure has a
      message, and nothing in progress shows one. */
  lemma {:induction false} EveryRunIsSound(belongs: Membership, channel: Channel, enabled: bool, actions: seq<Action>)
    requires PossibleRun(Start(channel, enabled), belongs, actions)
    ensures Inv(Run(Start(channel, enabled), belongs, actions), belongs)
  {
    if actions != [] {
      EveryRunIsSound(belongs, channel, enabled, actions[..|actions| - 1]);
      StepKeepsInv(Run(Start(channel, enabled), belongs, actions[..|actions| - 1]), belongs, actions[|actions| - 1]);
    }
  }

  /** A check that has reported is no longer shown as checking, and one that has not says when
      it began. */
  ghost predicate CheckShows(w: World) {
    && (w.v.s.status == Checking ==> !w.reported)
    && (w.v.check && !w.reported ==> w.v.s.checkedAt.Some?)
  }

  lemma CheckShowsStep(w: World, belongs: Membership, a: Action)
    requires Inv(w, belongs) && CheckShows(w) && Possible(w, a)
    ensures CheckShows(Step(w, belongs, a))
  {
  }

  /** In every run, once a check has reported, "checking" is over. */
  lemma {:induction false} ReportedCheckIsOver(belongs: Membership, channel: Channel, enabled: bool, actions: seq<Action>)
    requires PossibleRun(Start(channel, enabled), belongs, actions)
    ensures CheckShows(Run(Start(channel, enabled), belongs, actions))
  {
    if actions != [] {
      var front := actions[..|actions| - 1];
      ReportedCheckIsOver(belongs, channel, enabled, front);
      EveryRunIsSound(belongs, channel, enabled, front);
      CheckShowsStep(Run(Start(channel, enabled), belongs, front), belongs, actions[|actions| - 1]);
    }
  }

  predicate InFlight(w: World) {
    w.v.check || w.v.download || w.v.install
  }

  lemma ChannelStepStays(w: World, belongs: Membership, a: Action)
    requires InFlight(w)
    ensures Step(w, belongs, a).v.s.channel == w.v.s.channel
  {
    match a
    case SetChannel(_, _, _) =>
    case RaiseError(_, _) =>
    case _ =>
  }

  /** While something is in flight the channel stays, over any stretch of any run; a version
      that is available all along is of that channel by `EveryRunIsSound`. */
  lemma {:induction false} ChannelStaysInFlight(w: World, belongs: Membership, actions: seq<Action>, i: nat)
    requires i <= |actions|
    requires forall k :: i <= k < |actions| ==> InFlight(Run(w, belongs, actions[..k]))
    ensures Run(w, belongs, actions).v.s.channel == Run(w, belongs, actions[..i]).v.s.channel
    decreases |actions|
  {
    if i == |actions| {
      assert actions[..i] == actions;
    } else {
      var front := actions[..|actions| - 1];
      forall k | i <= k < |front| ensures InFlight(Run(w, belongs, front[..k])) {
        assert front[..k] == actions[..k];
      }
      ChannelStaysInFlight(w, belongs, front, i);
      assert front[..i] == actions[..i];
      assert InFlight(Run(w, belongs, front));
      ChannelStepStays(Run(w, belongs, front), belongs, actions[|actions| - 1]);
    }
  }

  // ----- "downloaded" and the version it speaks of -----

  ghost predicate DownloadedHasVersion(w: World) {
    w.v.s.status == Downloaded ==> w.v.s.downloadedVersion.Some?
  }

  /** The installation fails, by the attempt throwing or by an updater error. */
  predicate InstallFails(w: World, a: Action) {
    (a.ThrowInstall? && w.attempts > 0) || (a.RaiseError? && w.v.install)
  }

  /** A step breaks "downloaded means there is a version" exactly when an installation fails
      after the version it was of is gone. */
  lemma DownloadedHasVersionIff(w: World, belongs: Membership, a: Action)
    requires Inv(w, belongs) && Possible(w, a) && DownloadedHasVersion(w)
    ensures DownloadedHasVersion(Step(w, belongs, a)) <==> !(InstallFails(w, a) && w.v.s.downloadedVersion.None?)
  {
  }

  /** A channel change or a check outcome. */
  predicate Replaces(w: World, a: Action) {
    a.ReportAvailable? || a.ReportNone?
    || (a.SetChannel? && AcceptsChannel(w.v) && a.channel != w.v.s.channel)
  }

  /** No channel change and no check outcome while an installation is under way. */
  predicate LeavesInstallAlone(w: World, a: Action) {
    Replaces(w, a) ==> w.attempts == 0 && !w.v.install
  }

  ghost predicate UndisturbedRun(w: World, belongs: Membership, actions: seq<Action>) {
    actions == []
    || (UndisturbedRun(w, belongs, actions[..|actions| - 1])
        && LeavesInstallAlone(Run(w, belongs, actions[..|actions| - 1]), actions[|actions| - 1]))
  }

  ghost predicate InstallInv(w: World) {
    && DownloadedHasVersion(w)
    && (w.attempts > 0 || w.v.install ==> w.v.s.downloadedVersion.Some?)
  }

  lemma StepKeepsInstallInv(w: World, belongs: Membership, a: Action)
    requires Inv(w, belongs) && InstallInv(w) && Possible(w, a) && LeavesInstallAlone(w, a)
    ensures InstallInv(Step(w, belongs, a))
  {
  }

  /** In every possible run that leaves installations alone, status "downloaded" comes with the
      downloaded version, which is the available one. */
  lemma {:induction false} DownloadedAlwaysHasVersion(belongs: Membership, channel: Channel, enabled: bool, actions: seq<Action>)
    requires PossibleRun(Start(channel, enabled), belongs, actions)
    requires UndisturbedRun(Start(channel, enabled), belongs, actions)
    ensures InstallInv(Run(Start(channel, enabled), belongs, actions))
  {
    if actions != [] {
      var front := actions[..|actions| - 1];
      DownloadedAlwaysHasVersion(belongs, channel, enabled, front);
      EveryRunIsSound(belongs, channel, enabled, front);
      StepKeepsInstallInv(Run(Start(channel, enabled), belongs, front), belongs, actions[|actions| - 1]);
    }
  }

  lemma RunPush(w: World, belongs: Membership, actions: seq<Action>, a: Action)
    ensures Run(w, belongs, actions + [a]) == Step(Run(w, belongs, actions), belongs, a)
    ensures PossibleRun(w, belongs, actions + [a])
       <==> PossibleRun(w, belongs, actions) && Possible(Run(w, belongs, actions), a)
  {
    assert (actions + [a])[..|actions|] == actions;
  }

  lemma ReachDownloaded(belongs: Membership, version: string) returns (a: seq<Action>)
    requires belongs(version, Latest)
    ensures PossibleRun(Start(Latest, true), belongs, a)
    ensures var w := Run(Start(Latest, true), belongs, a);
      w.v.s.status == Downloaded && w.v.s.channel == Latest && !w.v.check && !w.v.download && !w.v.install && !w.v.quitting
      && w.v.configured && w.attempts == 0
  {
    var w := Start(Latest, true);
    a := [];
    RunPush(w, belongs, a, StartCheck(""));
    a := a + [StartCheck("")];
    RunPush(w, belongs, a, ReportAvailable(version, ""));
    a := a + [ReportAvailable(version, "")];
    RunPush(w, belongs, a, SettleCheck(None, ""));
    a := a + [SettleCheck(None, "")];
    RunPush(w, belongs, a, StartDownload);
    a := a + [StartDownload];
    RunPush(w, belongs, a, ReportDownloaded(version));
    a := a + [ReportDownloaded(version)];
    RunPush(w, belongs, a, SettleDownload(None));
    a := a + [SettleDownload(None)];
  }

  lemma ReachQuitWhileInstalling(belongs: Membership, version: string) returns (a: seq<Action>)
    requires belongs(version, Latest)
    ensures PossibleRun(Start(Latest, true), belongs, a)
    ensures var w := Run(Start(Latest, true), belongs, a);
      w.v.s.channel == Latest && AcceptsChannel(w.v) && w.v.quitting && w.attempts == 1
  {
    var w := Start(Latest, true);
    a := ReachDownloaded(belongs, version);
    RunPush(w, belongs, a, StartInstall);
    a := a + [StartInstall];
    RunPush(w, belongs, a, BeforeQuit);
    a := a + [BeforeQuit];
  }

  lemma ReachThrowAfterSwitch(belongs: Membership, version: string) returns (a: seq<Action>)
    requires belongs(version, Latest)
    ensures PossibleRun(Start(Latest, true), belongs, a)
    ensures !DownloadedHasVersion(Run(Start(Latest, true), belongs, a))
  {
    var w := Start(Latest, true);
    a := ReachQuitWhileInstalling(belongs, version);
    RunPush(w, belongs, a, SetChannel(Nightly, true, ""));
    a := a + [SetChannel(Nightly, true, "")];
    RunPush(w, belongs, a, ThrowInstall(""));
    a := a + [ThrowInstall("")];
  }

  /** Otherwise it can be missing: quitting clears the install flag, so the channel can be
      switched before the pending attempt throws. */
  lemma DisturbedInstallLosesVersion()
    ensures exists actions ::
      && PossibleRun(Start(Latest, true), SourceMembership, actions)
      && !DownloadedHasVersion(Run(Start(Latest, true), SourceMembership, actions))
  {
    assert DigitsFrom("1.2.3", 5) == DigitsFrom("1.2.3", 4) == 4;
    assert SourceMembership("1.2.3", Latest);
    var a := ReachThrowAfterSwitch(SourceMembership, "1.2.3");
  }

  // ----- progress -----

  function ReportedAfter(before: Option<real>, a: Action): Option<real> {
    match a
    case ReportProgress(percent) => Some(percent)
    case SettleDownload(_) => None
    case _ => before
  }

  /** The percent last reported of the download in flight. */
  function LastReported(actions: seq<Action>): Option<real> {
    if actions == [] then None else ReportedAfter(LastReported(actions[..|actions| - 1]), actions[|actions| - 1])
  }

  ghost predicate ShowsReported(w: World, reported: Option<real>) {
    && (reported.Some? ==> w.v.download)
    && (reported.Some? && w.v.s.status == Downloading ==> Shows(w.v.s, reported.value))
  }

  lemma ProgressStepShows(w: World, belongs: Membership, a: Action, reported: Option<real>)
    requires Inv(w, belongs) && Possible(w, a) && ShowsReported(w, reported)
    ensures ShowsReported(Step(w, belongs, a), ReportedAfter(reported, a))
  {
  }

  /** At every point of every possible run, the percent shown while downloading is not a tenth
      behind the one last reported, and 100 is shown once reported. */
  lemma {:induction false} ProgressIsShown(belongs: Membership, channel: Channel, enabled: bool, actions: seq<Action>)
    requires PossibleRun(Start(channel, enabled), belongs, actions)
    ensures ShowsReported(Run(Start(channel, enabled), belongs, actions), LastReported(actions))
  {
    if actions != [] {
      var front := actions[..|actions| - 1];
      ProgressIsShown(belongs, channel, enabled, front);
      EveryRunIsSound(belongs, channel, enabled, front);
      ProgressStepShows(Run(Start(channel, enabled), belongs, front), belongs, actions[|actions| - 1], LastReported(front));
    }
  }

  /** A failed download of a named version leaves that version available, to be tried again. */
  lemma FailedDownloadCanBeRetried(w: World, belongs: Membership, message: string)
    requires Inv(w, belongs) && w.v.download && w.version != "" && w.v.configured
    ensures var next := Step(w, belongs, SettleDownload(Some(message)));
      AcceptsDownload(next.v) && next.v.s.canRetry && next.v.s.availableVersion == Some(w.version)
  {
  }

  // ----- the controller as the object it is -----

  /** The module's variables and its handlers. The ghost fields say what the variables leave
      out of `World`. */
  class Controller {
    const belongs: Membership
    var s: UpdateState
    var check: bool
    var download: bool
    var install: bool
    var quitting: bool
    var configured: bool
    ghost var reported: bool
    ghost var version: string
    ghost var attempts: nat

    ghost function AsWorld(): World
      reads this
    {
      World(Vars(s, check, download, install, quitting, configured), reported, version, attempts)
    }

    ghost predicate Valid()
      reads this
    {
      Inv(AsWorld(), belongs)
    }

    constructor (belongs: Membership, channel: Channel, enabled: bool)
      ensures Valid() && this.belongs == belongs && AsWorld() == Start(channel, enabled)
    {
      this.belongs := belongs;
      s := BaseState(channel, enabled);
      check, download, install, quitting, configured := false, false, false, false, enabled;
      reported, version, attempts := false, "", 0;
    }

    /** What is shown: the status, the message and what it is about, and whether to offer a retry. */
    ghost predicate Shown(status: Status, message: Option<string>, context: Option<Context>, retry: bool)
      reads this
    {
      s.status == status && s.message == message && s.errorContext == context && s.canRetry == retry
    }

    /** Versions and channel are as they were. */
    twostate predicate SameVersions()
      reads this
    {
      && s.availableVersion == old(s.availableVersion) && s.downloadedVersion == old(s.downloadedVersion)
      && s.channel == old(s.channel) && s.enabled == old(s.enabled)
    }

    method StartCheck(now: string) returns (accepted: bool)
      requires Valid()
      modifies this`check, this`s, this`reported
      ensures Valid() && AsWorld() == Step(old(AsWorld()), belongs, Action.StartCheck(now))
      ensures accepted ==> check && !download && Shown(Checking, None, None, false) && SameVersions()
      ensures accepted ==> s.checkedAt == Some(now) && s.downloadPercent.None?
      ensures accepted <==> old(configured && !quitting && !check && s.status != Downloading && s.status != Downloaded)
      ensures !accepted ==> AsWorld() == old(AsWorld())
    {
      if quitting || !configured || check {
        return false;
      }
      if s.status == Downloading || s.status == Downloaded {
        return false;
      }
      StepKeepsInv(AsWorld(), belongs, Action.StartCheck(now));
      check := true;
      s := OnCheckStart(s, now);
      reported := false;
      return true;
    }

    method SettleCheck(failure: Option<string>, now: string)
      requires Valid() && Possible(AsWorld(), Action.SettleCheck(failure, now))
      modifies this`check, this`s
      ensures Valid() && AsWorld() == Step(old(AsWorld()), belongs, Action.SettleCheck(failure, now))
      ensures !check && SameVersions()
      ensures failure.Some? ==> Shown(Failed, failure, Some(CheckContext), true) && s.checkedAt == Some(now) && s.downloadPercent.None?
      ensures failure.None? ==> s == old(s)
    {
      StepKeepsInv(AsWorld(), belongs, Action.SettleCheck(failure, now));
      if failure.Some? {
        s := OnCheckFailure(s, failure.value, now);
      }
      check := false;
    }

    method StartDownload() returns (accepted: bool)
      requires Valid()
      modifies this`download, this`s, this`version
      ensures Valid() && AsWorld() == Step(old(AsWorld()), belongs, Action.StartDownload)
      ensures accepted ==> download && s.availableVersion == Some(version) && belongs(version, s.channel)
      ensures accepted ==> Shown(Downloading, None, None, false) && s.downloadPercent == Some(0.0) && SameVersions()
      ensures accepted <==> old(configured && !download && s.status == Available)
      ensures !accepted ==> AsWorld() == old(AsWorld())
    {
      if !configured || download || s.status != Available {
        return false;
      }
      StepKeepsInv(AsWorld(), belongs, Action.StartDownload);
      download := true;
      version := VersionOf(s);
      s := OnDownloadStart(s);
      return true;
    }

    /** After a failure the version of the download, if it has a name, is there to be tried again. */
    method SettleDownload(failure: Option<string>)
      requires Valid() && Possible(AsWorld(), Action.SettleDownload(failure))
      modifies this`download, this`s
      ensures Valid() && AsWorld() == Step(old(AsWorld()), belongs, Action.SettleDownload(failure))
      ensures !download && s.availableVersion == Some(version)
      ensures failure.Some? ==>
        Shown(if version != "" then Available else Failed, failure, Some(DownloadContext), true) && s.downloadPercent.None?
      ensures SameVersions() && (failure.None? ==> s == old(s))
    {
      StepKeepsInv(AsWorld(), belongs, Action.SettleDownload(failure));
      if failure.Some? {
        s := OnDownloadFailure(s, failure.value);
      }
      download := false;
    }

    method StartInstall() returns (accepted: bool)
      requires Valid()
      modifies this`quitting, this`install, this`attempts
      ensures Valid() && AsWorld() == Step(old(AsWorld()), belongs, Action.StartInstall)
      ensures accepted ==> install && quitting && s.status == Downloaded && attempts == old(attempts) + 1
      ensures accepted <==> old(configured && !quitting && s.status == Downloaded)
      ensures !accepted ==> AsWorld() == old(AsWorld())
    {
      if quitting || !configured || s.status != Downloaded {
        return false;
      }
      quitting := true;
      install := true;
      attempts := attempts + 1;
      return true;
    }

    /** The handoff to the installer returned; nothing is known of the installation yet. */
    ghost method HandOffInstall()
      requires Valid() && Possible(AsWorld(), Action.HandOffInstall)
      modifies this`attempts
      ensures Valid() && AsWorld() == Step(old(AsWorld()), belongs, Action.HandOffInstall)
    {
      attempts := attempts - 1;
    }

    method FailInstall(message: string)
      requires Valid() && Possible(AsWorld(), ThrowInstall(message))
      modifies this`quitting, this`install, this`s, this`attempts
      ensures Valid() && AsWorld() == Step(old(AsWorld()), belongs, ThrowInstall(message))
      ensures !install && !quitting && Shown(Downloaded, Some(message), Some(InstallContext), true) && SameVersions()
    {
      StepKeepsInv(AsWorld(), belongs, ThrowInstall(message));
      install := false;
      quitting := false;
      s := OnInstallFailure(s, message);
      attempts := attempts - 1;
    }

    /** Whatever version is available afterwards is the reported one, and of the channel. */
    method UpdateAvailable(version: string, now: string)
      requires Valid() && Possible(AsWorld(), ReportAvailable(version, now))
      modifies this`s, this`reported
      ensures Valid() && AsWorld() == Step(old(AsWorld()), belongs, ReportAvailable(version, now))
      ensures s.availableVersion == Some(version) <==> belongs(version, s.channel)
      ensures s.availableVersion.None? || s.availableVersion == Some(version)
      ensures Shown(if belongs(version, s.channel) then Available else UpToDate, None, None, false)
      ensures s.downloadedVersion.None? && s.downloadPercent.None? && s.checkedAt == Some(now)
    {
      StepKeepsInv(AsWorld(), belongs, ReportAvailable(version, now));
      reported := true;
      if !belongs(version, s.channel) {
        s := OnNoUpdate(s, now);
        return;
      }
      s := OnUpdateAvailable(s, version, now);
    }

    method UpdateNotAvailable(now: string)
      requires Valid() && Possible(AsWorld(), ReportNone(now))
      modifies this`s, this`reported
      ensures Valid() && AsWorld() == Step(old(AsWorld()), belongs, ReportNone(now))
      ensures s.availableVersion.None? && s.downloadedVersion.None? && s.downloadPercent.None?
      ensures Shown(UpToDate, None, None, false) && s.checkedAt == Some(now)
    {
      StepKeepsInv(AsWorld(), belongs, ReportNone(now));
      s := OnNoUpdate(s, now);
      reported := true;
    }

    function ErrorContext(): Option<Context>
      reads this
    {
      if install then Some(InstallContext)
      else if download then Some(DownloadContext)
      else if check then Some(CheckContext)
      else s.errorContext
    }

    /** A check or download in flight reports its own failure; any other error is shown. */
    method UpdaterError(message: string, now: string)
      requires Valid() && Possible(AsWorld(), RaiseError(message, now))
      modifies this`quitting, this`install, this`s
      ensures Valid() && AsWorld() == Step(old(AsWorld()), belongs, RaiseError(message, now))
      ensures !install && SameVersions()
      ensures old(install) ==> !quitting && Shown(Downloaded, Some(message), Some(InstallContext), true)
      ensures !old(install) && old(check || download) ==> AsWorld() == old(AsWorld())
      ensures !old(install || check || download) ==>
        && Shown(Failed, Some(message), old(s.errorContext), s.availableVersion.Some? || s.downloadedVersion.Some?)
        && s.checkedAt == Some(now) && s.downloadPercent.None? && quitting == old(quitting)
    {
      StepKeepsInv(AsWorld(), belongs, RaiseError(message, now));
      if install {
        install := false;
        quitting := false;
        s := OnInstallFailure(s, message);
        return;
      }
      if !check && !download {
        s := s.(status := Failed, message := Some(message), checkedAt := Some(now), downloadPercent := None,
                errorContext := ErrorContext(),
                canRetry := s.availableVersion.Some? || s.downloadedVersion.Some?);
      }
    }

    /** The shown percent is never a tenth behind the reported one, and 100 is always shown. */
    method DownloadProgress(percent: real)
      requires Valid() && Possible(AsWorld(), ReportProgress(percent))
      modifies this`s
      ensures Valid() && AsWorld() == Step(old(AsWorld()), belongs, ReportProgress(percent))
      ensures Shows(s, percent) && Shown(Downloading, None, None, false) && SameVersions()
    {
      StepKeepsInv(AsWorld(), belongs, ReportProgress(percent));
      if ShouldBroadcast(s, percent) || s.message.Some? {
        s := OnDownloadProgress(s, percent);
      }
    }

    method UpdateDownloaded(version: string)
      requires Valid() && Possible(AsWorld(), ReportDownloaded(version))
      modifies this`s
      ensures Valid() && AsWorld() == Step(old(AsWorld()), belongs, ReportDownloaded(version))
      ensures s.downloadedVersion == s.availableVersion == Some(version) && belongs(version, s.channel)
      ensures Shown(Downloaded, None, None, true) && s.downloadPercent == Some(100.0)
    {
      StepKeepsInv(AsWorld(), belongs, ReportDownloaded(version));
      s := OnDownloadComplete(s, version);
    }

    /** Refused exactly while an action is in flight; a new channel has no version yet. */
    method SetChannel(channel: Channel, enabled: bool, now: string) returns (ok: bool)
      requires Valid()
      modifies this`check, this`s, this`reported
      ensures Valid() && AsWorld() == Step(old(AsWorld()), belongs, Action.SetChannel(channel, enabled, now))
      ensures ok <==> !old(check || download || install)
      ensures if ok then s.channel == channel else AsWorld() == old(AsWorld())
      ensures ok && channel == old(s.channel) ==> AsWorld() == old(AsWorld())
      ensures ok && channel != old(s.channel) ==>
        && s.availableVersion.None? && s.downloadedVersion.None? && s.downloadPercent.None? && s.enabled == enabled
        && Shown(if !enabled then Disabled else if check then Checking else Idle, None, None, false)
        && (check <==> enabled && configured && !quitting) && (check ==> s.checkedAt == Some(now))
    {
      if check || download || install {
        return false;
      }
      if channel == s.channel {
        return true;
      }
      s := BaseState(channel, enabled);
      if enabled && configured {
        var _ := StartCheck(now);
      }
      return true;
    }

    method Quit()
      requires Valid()
      modifies this`quitting
      ensures Valid() && AsWorld() == Step(old(AsWorld()), belongs, Action.Quit)
      ensures quitting
    {
      quitting := true;
    }

    /** Quitting drops the install flag, not the attempt: it may still fail. */
    method BeforeQuit()
      requires Valid()
      modifies this`quitting, this`install
      ensures Valid() && AsWorld() == Step(old(AsWorld()), belongs, Action.BeforeQuit)
      ensures quitting && !install && attempts == old(attempts)
    {
      quitting := true;
      install := false;
    }
  }

  /** One possible step, taken by the object. */
  method Perform(c: Controller, a: Action)
    requires c.Valid() && Possible(c.AsWorld(), a)
    modifies c
    ensures c.Valid() && c.AsWorld() == Step(old(c.AsWorld()), c.belongs, a)
  {
    match a
    case StartCheck(now) => var _ := c.StartCheck(now);
    case SettleCheck(failure, now) => c.SettleCheck(failure, now);
    case ReportAvailable(version, now) => c.UpdateAvailable(version, now);
    case ReportNone(now) => c.UpdateNotAvailable(now);
    case StartDownload => var _ := c.StartDownload();
    case ReportProgress(percent) => c.DownloadProgress(percent);
    case ReportDownloaded(version) => c.UpdateDownloaded(version);
    case SettleDownload(failure) => c.SettleDownload(failure);
    case StartInstall => var _ := c.StartInstall();
    case HandOffInstall => c.HandOffInstall();
    case ThrowInstall(message) => c.FailInstall(message);
    case RaiseError(message, now) => c.UpdaterError(message, now);
    case SetChannel(channel, enabled, now) => var _ := c.SetChannel(channel, enabled, now);
    case Quit => c.Quit();
    case BeforeQuit => c.BeforeQuit();
  }

  lemma {:induction false} PossiblePrefix(w: World, belongs: Membership, actions: seq<Action>, i: nat)
    requires i < |actions| && PossibleRun(w, belongs, actions)
    ensures PossibleRun(w, belongs, actions[..i]) && Possible(Run(w, belongs, actions[..i]), actions[i])
    decreases |actions|
  {
    var front := actions[..|actions| - 1];
    if i < |front| {
      PossiblePrefix(w, belongs, front, i);
      assert front[..i] == actions[..i];
    }
  }

  /** A new controller driven through any possible run ends where the run says, and is sound. */
  method Drive(belongs: Membership, channel: Channel, enabled: bool, actions: seq<Action>) returns (c: Controller)
    requires PossibleRun(Start(channel, enabled), belongs, actions)
    ensures c.Valid() && c.AsWorld() == Run(Start(channel, enabled), belongs, actions)
  {
    c := new Controller(belongs, channel, enabled);
    for i := 0 to |actions|
      invariant c.Valid() && c.belongs == belongs && fresh(c)
      invariant c.AsWorld() == Run(Start(channel, enabled), belongs, actions[..i])
    {
      PossiblePrefix(Start(channel, enabled), belongs, actions, i);
      assert actions[..i + 1][..i] == actions[..i];
      Perform(c, actions[i]);
    }
    assert actions[..|actions|] == actions;
  }
}
