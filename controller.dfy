/**
 * The update flow of the extension: the passive check run on session start
 * and session switch, the background refresh, the prompt with its three
 * choices, the install, and the explicit `update` command.
 *
 * What the outside world answers is passed in: the fetched latest version,
 * the menu label the user picks, what the install process reports, whether
 * the user aborted the install wait, the answer to the shutdown question, and
 * whether writes to the cache file succeed. What the flow shows the user is
 * recorded, in order, as events of the `Context`.
 */
module UpdateController {
  import opened Wrappers
  import opened Text
  import opened VersionCompare
  import opened UpdateCache

  const PackageName: string := "@mariozechner/pi-coding-agent"
  /** The program that stands for "cannot self-update": its first argument is shown instead of run. */
  const EchoProgram: string := "echo"
  const SkipLabel: string := "Skip"
  const SkipThisVersionLabel: string := "Skip this version"
  const ShutdownQuestion: string := "Shut down pi? (Use pi -c to continue this session)"
  const UnreachableMessage: string := "Could not reach npm registry."

  /** A string that JavaScript treats as true: present and not empty. */
  predicate Truthy(s: Option<string>) {
    s.Some? && s.value != ""
  }

  // ---------------------------------------------------------------- install command

  datatype InstallCommand = InstallCommand(program: string, args: seq<string>)

  /** `getInstallCommand(version)`: a global npm install of the package pinned to `version`. */
  function GetInstallCommand(version: string): (cmd: InstallCommand)
    ensures cmd.program != EchoProgram
    ensures |cmd.args| == 3 && cmd.args[2] == PackageName + "@" + version
  {
    InstallCommand("npm", ["install", "-g", PackageName + "@" + version])
  }

  /** `fmtCmd(cmd)`: the program, a space, and the arguments joined by spaces. */
  function FmtCmd(cmd: InstallCommand): (text: string)
    ensures |text| > |cmd.program| && text[..|cmd.program|] == cmd.program && text[|cmd.program|] == ' '
    ensures text[|cmd.program| + 1..] == Join(cmd.args, ' ')
  {
    cmd.program + " " + Join(cmd.args, ' ')
  }

  /** The rendered command splits back into program and arguments when none of them holds a space. */
  lemma FmtCmdSplits(cmd: InstallCommand)
    requires ' ' !in cmd.program && |cmd.args| > 0
    requires forall k :: 0 <= k < |cmd.args| ==> ' ' !in cmd.args[k]
    ensures Split(FmtCmd(cmd), ' ') == [cmd.program] + cmd.args
  {
    SplitJoin(cmd.args, ' ');
    SplitAtFirst(cmd.program, Join(cmd.args, ' '), ' ');
  }

  /** The install command as the prompt shows it. */
  lemma InstallCommandText(version: string)
    ensures FmtCmd(GetInstallCommand(version)) == "npm install -g " + PackageName + "@" + version
  {
    JoinThree("install", "-g", PackageName + "@" + version, ' ');
  }

  // ---------------------------------------------------------------- passive check

  /**
   * The decision of `getUpgradeVersion`: offer the cached latest version when a
   * cache exists, that version is newer than the running one, and the user has
   * not dismissed exactly that string.
   */
  function UpgradeDecision(cache: Option<VersionCache>, current: string): (offer: Option<string>)
    ensures offer.Some? <==>
      && cache.Some?
      && IsNewer(cache.value.latestVersion, current)
      && cache.value.dismissedVersion != Some(cache.value.latestVersion)
    ensures offer.Some? ==> offer.value == cache.value.latestVersion
  {
    if cache.None? then None
    else if !IsNewer(cache.value.latestVersion, current) then None
    else if cache.value.dismissedVersion == Some(cache.value.latestVersion) then None
    else Some(cache.value.latestVersion)
  }

  /** An offered version always parses, so it is never the empty string the hooks would ignore. */
  lemma OfferIsAVersion(cache: Option<VersionCache>, current: string)
    requires UpgradeDecision(cache, current).Some?
    ensures ParseVersion(UpgradeDecision(cache, current).value).Some?
    ensures Truthy(UpgradeDecision(cache, current))
  {
  }

  /** Dismissing the cached latest version suppresses the offer. */
  lemma DismissalSuppresses(cache: Option<VersionCache>, current: string)
    requires cache.Some?
    ensures UpgradeDecision(Dismissed(cache, cache.value.latestVersion), current) == None
  {
  }

  /** After a refresh lands, the offer depends only on the fetched version and the dismissal on file. */
  lemma DecisionAfterRefresh(cache: Option<VersionCache>, latest: string, current: string)
    ensures UpgradeDecision(Some(Refreshed(cache, latest)), current) ==
      if IsNewer(latest, current) && DismissedIn(cache) != Some(latest) then Some(latest) else None
  {
  }

  /**
   * A dismissal suppresses only the version it names: once a refresh stores a
   * different newer version, the stale dismissal no longer hides the offer.
   */
  lemma StaleDismissalReleased(cache: Option<VersionCache>, latest: string, current: string)
    requires cache.Some? && cache.value.dismissedVersion == Some(cache.value.latestVersion)
    requires latest != cache.value.latestVersion && IsNewer(latest, current)
    ensures UpgradeDecision(cache, current) == None
    ensures UpgradeDecision(Some(Refreshed(cache, latest)), current) == Some(latest)
  {
  }

  /** The cache {2.0.0, dismissed 2.0.0} on 1.0.0 offers nothing; after 2.0.1 lands it offers 2.0.1. */
  lemma SuppressionExample()
    ensures UpgradeDecision(Some(VersionCache("2.0.0", Some("2.0.0"))), "1.0.0") == None
    ensures UpgradeDecision(Some(Refreshed(Some(VersionCache("2.0.0", Some("2.0.0"))), "2.0.1")), "1.0.0")
      == Some("2.0.1")
  {
    var cache := Some(VersionCache("2.0.0", Some("2.0.0")));
    ParseDigits("2.0.1", 2, 0, 1);
    ParseDigits("1.0.0", 1, 0, 0);
    assert IsNewer("2.0.1", "1.0.0");
    assert "2.0.1" != "2.0.0" by {
      assert "2.0.1"[4] != "2.0.0"[4];
    }
    StaleDismissalReleased(cache, "2.0.1", "1.0.0");
  }

  // ---------------------------------------------------------------- user interface

  datatype Level = Info | Error

  /** What the flow shows: a notification, the choice menu, the shutdown question, the shutdown. */
  datatype UiEvent =
    | Notified(message: string, level: Level)
    | Selected(title: string, options: seq<string>)
    | Confirmed(title: string, message: string)
    | ShutDown

  /** The host context of one trigger: whether a UI is attached, and what was shown so far. */
  class Context {
    const hasUI: bool
    var events: seq<UiEvent>

    constructor (hasUI: bool)
      ensures this.hasUI == hasUI && events == []
    {
      this.hasUI := hasUI;
      events := [];
    }

    method Record(e: UiEvent)
      modifies this
      ensures events == old(events) + [e]
    {
      events := events + [e];
    }
  }

  /** What `pi.exec` reports: an exit with its code and output, or a rejected call (spawn error). */
  datatype ExecResult = Exited(code: int, stdout: string, stderr: string) | Rejected

  /** The answers of the user, the install process and the file system during one flow. */
  datatype Responses = Responses(
    choice: Option<string>,    // the menu label picked, None when the menu is closed
    exec: ExecResult,          // the outcome of running the install command
    installAborted: bool,      // the user aborted the wait before the install finished
    confirmShutdown: bool,     // the answer to the shutdown question
    recordOk: bool,            // whether the `update` command's write of the fetched version succeeds
    dismissOk: bool)           // whether the write of "Skip this version" succeeds

  // ---------------------------------------------------------------- prompt

  function PromptTitle(current: string, latest: string): string {
    "Update " + current + " \U{2192} " + latest
  }

  function UpdateNowLabel(cmd: InstallCommand): string {
    "Update now (" + FmtCmd(cmd) + ")"
  }

  /** The three menu entries, in order: install now, skip, skip this version. */
  function PromptOptions(cmd: InstallCommand): seq<string> {
    [UpdateNowLabel(cmd), SkipLabel, SkipThisVersionLabel]
  }

  datatype PromptAction = KeepAsking | DismissLatest | InstallLatest

  /**
   * The choice handling of `showUpdatePrompt`: no choice, an empty label or
   * "Skip" changes nothing; "Skip this version" dismisses; any other label installs.
   */
  function ChoiceAction(choice: Option<string>): (action: PromptAction)
    ensures action == KeepAsking <==> !Truthy(choice) || choice.value == SkipLabel
    ensures action == DismissLatest <==> choice == Some(SkipThisVersionLabel)
  {
    if !Truthy(choice) || choice.value == SkipLabel then KeepAsking
    else if choice.value == SkipThisVersionLabel then DismissLatest
    else InstallLatest
  }

  /** The three menu entries lead to install, no change and dismissal respectively. */
  lemma PromptOptionsActions(cmd: InstallCommand)
    ensures ChoiceAction(Some(PromptOptions(cmd)[0])) == InstallLatest
    ensures ChoiceAction(Some(PromptOptions(cmd)[1])) == KeepAsking
    ensures ChoiceAction(Some(PromptOptions(cmd)[2])) == DismissLatest
  {
    var entry := UpdateNowLabel(cmd);
    assert entry[0] == 'U';
    assert entry != SkipLabel && entry != SkipThisVersionLabel;
  }

  // ---------------------------------------------------------------- install

  /** `cmd.args[0]`, shown when the program is the echo sentinel (`undefined` printed as ""). */
  function FirstArg(cmd: InstallCommand): string {
    if |cmd.args| > 0 then cmd.args[0] else ""
  }

  /** The failure notice: the exit code, then stderr, or stdout when stderr is empty. */
  function FailureMessage(code: int, stdout: string, stderr: string): (m: string)
    ensures |m| > |"Update failed (exit "| && m[..|"Update failed (exit "|] == "Update failed (exit "
    ensures stderr != [] ==> |m| >= |stderr| && m[|m| - |stderr|..] == stderr
    ensures stderr == [] ==> |m| >= |stdout| && m[|m| - |stdout|..] == stdout
  {
    "Update failed (exit " + IntToString(code) + "): " + (if stderr != "" then stderr else stdout)
  }

  /** The notification the install run shows, if any. */
  function RunNotices(cmd: InstallCommand, exec: ExecResult): (notices: seq<UiEvent>)
    ensures |notices| <= 1 && forall e :: e in notices ==> e.Notified?
    ensures cmd.program == EchoProgram ==> notices == [Notified(FirstArg(cmd), Info)]
    ensures cmd.program != EchoProgram ==> (notices != [] <==> exec.Exited? && exec.code != 0)
    ensures cmd.program != EchoProgram && notices != [] ==> notices[0].level == Error
  {
    if cmd.program == EchoProgram then [Notified(FirstArg(cmd), Info)]
    else match exec
      case Exited(code, stdout, stderr) =>
        if code != 0 then [Notified(FailureMessage(code, stdout, stderr), Error)] else []
      case Rejected => []
  }

  /** The install counts as a success only for a real program that exits with 0, without an abort. */
  function InstallSucceeded(cmd: InstallCommand, r: Responses): (success: bool)
    ensures success ==> cmd.program != EchoProgram && r.exec.Exited? && r.exec.code == 0
    ensures success ==> !r.installAborted
  {
    && !r.installAborted
    && cmd.program != EchoProgram
    && r.exec.Exited? && r.exec.code == 0
  }

  /** What `doInstall` shows: the run's notice, then on success the shutdown question and maybe the shutdown. */
  function InstallEvents(latest: string, cmd: InstallCommand, r: Responses): seq<UiEvent> {
    RunNotices(cmd, r.exec) +
    if InstallSucceeded(cmd, r) then
      [Confirmed("Updated to " + latest + "!", ShutdownQuestion)] + (if r.confirmShutdown then [ShutDown] else [])
    else []
  }

  /** A failed install shows at most one notification: no shutdown question and no shutdown. */
  lemma FailedInstallOnlyNotifies(latest: string, cmd: InstallCommand, r: Responses)
    requires !InstallSucceeded(cmd, r)
    ensures |InstallEvents(latest, cmd, r)| <= 1
    ensures forall e :: e in InstallEvents(latest, cmd, r) ==> e.Notified?
  {
  }

  /** The process shuts down exactly when the install succeeded and the user agreed. */
  lemma ShutdownNeedsSuccessAndConsent(latest: string, cmd: InstallCommand, r: Responses)
    ensures ShutDown in InstallEvents(latest, cmd, r) <==> InstallSucceeded(cmd, r) && r.confirmShutdown
    ensures (exists e :: e in InstallEvents(latest, cmd, r) && e.Confirmed?) <==> InstallSucceeded(cmd, r)
  {
    var events := InstallEvents(latest, cmd, r);
    if InstallSucceeded(cmd, r) {
      var question := Confirmed("Updated to " + latest + "!", ShutdownQuestion);
      assert events[|RunNotices(cmd, r.exec)|] == question;
    }
  }

  /** `doInstall`: run the command, report a failure, and on success ask whether to shut down. */
  method DoInstall(ctx: Context, latest: string, cmd: InstallCommand, r: Responses) returns (success: bool)
    modifies ctx
    ensures success == InstallSucceeded(cmd, r)
    ensures ctx.events == old(ctx.events) + InstallEvents(latest, cmd, r)
  {
    var ran: bool;
    if cmd.program == EchoProgram {
      ctx.Record(Notified(FirstArg(cmd), Info));
      ran := false;
    } else {
      match r.exec
      case Exited(code, stdout, stderr) =>
        if code != 0 {
          ctx.Record(Notified(FailureMessage(code, stdout, stderr), Error));
          ran := false;
        } else {
          ran := true;
        }
      case Rejected =>
        ran := false;
    }
    success := ran && !r.installAborted;
    if !success {
      return;
    }
    ctx.Record(Confirmed("Updated to " + latest + "!", ShutdownQuestion));
    if r.confirmShutdown {
      ctx.Record(ShutDown);
    }
  }

  /** What `showUpdatePrompt` shows: the menu, then what the install shows when install was picked. */
  function PromptEvents(current: string, latest: string, r: Responses): seq<UiEvent> {
    var cmd := GetInstallCommand(latest);
    [Selected(PromptTitle(current, latest), PromptOptions(cmd))] +
    if ChoiceAction(r.choice) == InstallLatest then InstallEvents(latest, cmd, r) else []
  }

  /** The cache after the prompt: changed only by a successful "Skip this version". */
  function PromptCache(cache: Option<VersionCache>, latest: string, r: Responses): Option<VersionCache> {
    if ChoiceAction(r.choice) == DismissLatest && r.dismissOk then Dismissed(cache, latest) else cache
  }

  /** The prompt always opens with the menu, and only an install choice shows more. */
  lemma PromptShowsMenuFirst(current: string, latest: string, r: Responses)
    ensures var events := PromptEvents(current, latest, r);
      && events != []
      && events[0] == Selected(PromptTitle(current, latest), [UpdateNowLabel(GetInstallCommand(latest)), SkipLabel, SkipThisVersionLabel])
      && (ChoiceAction(r.choice) != InstallLatest ==> |events| == 1)
  {
  }

  /**
   * The prompt changes the cache only through "Skip this version": every other
   * choice, a failed install included, leaves it as it was.
   */
  lemma PromptKeepsCacheUnlessDismissed(cache: Option<VersionCache>, latest: string, r: Responses)
    ensures ChoiceAction(r.choice) != DismissLatest ==> PromptCache(cache, latest, r) == cache
    ensures ChoiceAction(r.choice) == DismissLatest && r.dismissOk ==> PromptCache(cache, latest, r) == Dismissed(cache, latest)
  {
  }

  /** `showUpdatePrompt`: show the menu and act on the choice. */
  method ShowUpdatePrompt(file: CacheFile, ctx: Context, current: string, latest: string, r: Responses)
    modifies file, ctx
    ensures ctx.events == old(ctx.events) + PromptEvents(current, latest, r)
    ensures file.cache == PromptCache(old(file.cache), latest, r)
  {
    var cmd := GetInstallCommand(latest);
    ctx.Record(Selected(PromptTitle(current, latest), PromptOptions(cmd)));
    match ChoiceAction(r.choice)
    case KeepAsking =>
      return;
    case DismissLatest =>
      file.Dismiss(latest, r.dismissOk);
    case InstallLatest =>
      var _ := DoInstall(ctx, latest, cmd, r);
  }

  // ---------------------------------------------------------------- triggers

  /** The decision half of `getUpgradeVersion`: read the cache and decide. */
  method GetUpgradeVersion(file: CacheFile, current: string) returns (offer: Option<string>)
    ensures offer == UpgradeDecision(file.cache, current)
  {
    var cache := file.Read();
    offer := UpgradeDecision(cache, current);
  }

  /**
   * The write of the background refresh started by `getUpgradeVersion`, at
   * the moment its fetch completes: nothing without a fetched version,
   * otherwise the fetched version with the dismissal on file at that moment.
   */
  method RefreshLands(file: CacheFile, fetched: Option<string>, writeOk: bool)
    modifies file
    ensures file.cache == if Truthy(fetched) && writeOk then Some(Refreshed(old(file.cache), fetched.value))
                          else old(file.cache)
  {
    if !Truthy(fetched) {
      return;
    }
    file.RecordLatest(fetched.value, writeOk);
  }

  /** A dismissal that lands while the refresh is fetching survives the refresh write. */
  method DismissDuringRefresh(file: CacheFile, dismissed: string, fetched: string)
    requires file.cache.Some? && fetched != ""
    modifies file
    ensures file.cache == Some(VersionCache(fetched, Some(dismissed)))
  {
    file.Dismiss(dismissed, true);
    RefreshLands(file, Some(fetched), true);
  }

  /**
   * The `session_start` and `session_switch` hooks: with a UI attached,
   * decide from the cache and, when a version is offered, run the prompt.
   */
  method OnSession(file: CacheFile, ctx: Context, current: string, r: Responses) returns (offer: Option<string>)
    modifies file, ctx
    ensures offer == if ctx.hasUI then UpgradeDecision(old(file.cache), current) else None
    ensures ctx.events == old(ctx.events) + if offer.Some? then PromptEvents(current, offer.value, r) else []
    ensures file.cache == if offer.Some? then PromptCache(old(file.cache), offer.value, r) else old(file.cache)
  {
    if !ctx.hasUI {
      return None;
    }
    offer := GetUpgradeVersion(file, current);
    if offer.Some? {
      OfferIsAVersion(file.cache, current);
    }
    if Truthy(offer) {
      ShowUpdatePrompt(file, ctx, current, offer.value, r);
    }
  }

  function AlreadyLatestMessage(current: string): string {
    "Already on latest version (" + current + ")."
  }

  datatype CheckOutcome = Unreachable | AlreadyLatest | Offered(latest: string)

  /** The branch the `update` command takes for a fetch result: no dismissal check at all. */
  function CheckOutcomeOf(fetched: Option<string>, current: string): (outcome: CheckOutcome)
    ensures outcome == Unreachable <==> !Truthy(fetched)
    ensures outcome.Offered? <==> Truthy(fetched) && IsNewer(fetched.value, current)
    ensures outcome.Offered? ==> outcome.latest == fetched.value
  {
    if !Truthy(fetched) then Unreachable
    else if !IsNewer(fetched.value, current) then AlreadyLatest
    else Offered(fetched.value)
  }

  /** What the `update` command shows for each outcome. */
  function CheckEvents(current: string, outcome: CheckOutcome, r: Responses): seq<UiEvent> {
    match outcome
    case Unreachable => [Notified(UnreachableMessage, Error)]
    case AlreadyLatest => [Notified(AlreadyLatestMessage(current), Info)]
    case Offered(latest) => PromptEvents(current, latest, r)
  }

  /**
   * The cache after the `update` command: untouched when the registry was not
   * reached; otherwise the fetched version stored, then the prompt's effect.
   */
  function CheckCache(cache: Option<VersionCache>, fetched: Option<string>, outcome: CheckOutcome, r: Responses)
    : Option<VersionCache>
    requires outcome != Unreachable ==> fetched.Some?
  {
    if outcome == Unreachable then cache
    else
      var stored := if r.recordOk then Some(Refreshed(cache, fetched.value)) else cache;
      if outcome.Offered? then PromptCache(stored, fetched.value, r) else stored
  }

  /**
   * The explicit check offers the prompt for a newer fetched version even when
   * that exact version is dismissed, where the passive check stays silent.
   */
  lemma UpdateCommandBypassesDismissal(current: string, latest: string, r: Responses)
    requires latest != "" && IsNewer(latest, current)
    ensures UpgradeDecision(Some(VersionCache(latest, Some(latest))), current) == None
    ensures CheckOutcomeOf(Some(latest), current) == Offered(latest)
    ensures CheckEvents(current, CheckOutcomeOf(Some(latest), current), r)[0].Selected?
  {
  }

  /**
   * The cache after the `update` command: untouched when the registry is not
   * reached; otherwise the fetched version is stored with the dismissal kept,
   * and the two writes of the flow succeed or fail independently.
   */
  lemma UpdateCommandCache(cache: Option<VersionCache>, fetched: Option<string>, current: string, r: Responses)
    ensures !Truthy(fetched) ==> CheckCache(cache, fetched, CheckOutcomeOf(fetched, current), r) == cache
    ensures Truthy(fetched) && r.recordOk && ChoiceAction(r.choice) != DismissLatest ==>
      CheckCache(cache, fetched, CheckOutcomeOf(fetched, current), r) == Some(VersionCache(fetched.value, DismissedIn(cache)))
    ensures Truthy(fetched) && IsNewer(fetched.value, current) && !r.recordOk && ChoiceAction(r.choice) == DismissLatest && r.dismissOk ==>
      CheckCache(cache, fetched, CheckOutcomeOf(fetched, current), r) == Dismissed(cache, fetched.value)
  {
  }

  /**
   * What the `update` command shows: the registry error when nothing was
   * fetched, the "already on latest" notice when the fetched version is not
   * newer, and the menu exactly when it is.
   */
  lemma UpdateCommandEvents(current: string, fetched: Option<string>, r: Responses)
    ensures var events := CheckEvents(current, CheckOutcomeOf(fetched, current), r);
      && (!Truthy(fetched) ==> events == [Notified(UnreachableMessage, Error)])
      && (Truthy(fetched) && !IsNewer(fetched.value, current) ==> events == [Notified(AlreadyLatestMessage(current), Info)])
      && ((exists e :: e in events && e.Selected?) <==> Truthy(fetched) && IsNewer(fetched.value, current))
  {
    var events := CheckEvents(current, CheckOutcomeOf(fetched, current), r);
    if Truthy(fetched) && IsNewer(fetched.value, current) {
      assert events[0] in events;
    }
  }

  /** The `update` command handler. */
  method UpdateCommand(file: CacheFile, ctx: Context, current: string, fetched: Option<string>, r: Responses)
    returns (outcome: CheckOutcome)
    modifies file, ctx
    ensures outcome == CheckOutcomeOf(fetched, current)
    ensures ctx.events == old(ctx.events) + CheckEvents(current, outcome, r)
    ensures file.cache == CheckCache(old(file.cache), fetched, outcome, r)
  {
    outcome := CheckOutcomeOf(fetched, current);
    if outcome == Unreachable {
      ctx.Record(Notified(UnreachableMessage, Error));
      return;
    }
    var latest := fetched.value;
    file.RecordLatest(latest, r.recordOk);
    if outcome == AlreadyLatest {
      ctx.Record(Notified(AlreadyLatestMessage(current), Info));
      return;
    }
    ShowUpdatePrompt(file, ctx, current, latest, r);
  }
}
