/** The operation orchestrator: one `Operations` object per request
    `(name, operation)` checks whether the package is installed, checks the
    version when upgrading, makes at most one changing installer call and
    reports every step to the window through four callbacks. Here the
    callbacks and the installer commands append to one ordered log, and the
    gateway's answers come from a `Gateway` value: what each gateway
    operation returns for this package. */
module BaseOperation {
  import opened Strings
  import opened PackageManager

  /** The status kinds the window knows (`status_type`). */
  datatype Level = Info | Success | Error | Warning | Loading

  /** One callback invocation. */
  datatype Event =
    | StatusUi(message: string, level: Level)   // update_status_ui
    | InfoWin(message: string)                  // show_info_win
    | ErrWin(message: string)                   // show_err_win
    | Status(message: string, level: Level)     // update_status

  /** One installer command issued through the gateway. */
  datatype Call = Show | InstallCall | UninstallCall | UpgradeCall | IndexVersions

  /** One entry of a run's log: a callback or an installer command, kept in
      the order the run makes them. */
  datatype Step = Ev(event: Event) | Gw(call: Call)

  /** What each gateway operation returns for this package. `checkVersion`
      is `None` when `check_package_version` returns nothing. */
  datatype Gateway = Gateway(
    checkInstalled: Reply,
    install: Reply,
    uninstall: Reply,
    upgrade: Reply,
    checkVersion: Option<Reply>)

  /** The gateway answers that the installer's processes lead to. */
  function GatewayOf(show: ProcessOutcome, install: ProcessOutcome, uninstall: ProcessOutcome,
                     upgrade: ProcessOutcome, indexVersions: ProcessOutcome): Gateway
  {
    Gateway(CheckPackageIfInstalled(show), InstallPackage(install), UninstallPackage(uninstall),
            UpgradePackage(upgrade), CheckPackageVersion(indexVersions))
  }

  /** The visible effect of a run: its log of callbacks and installer
      commands, and whether the run ended by raising (the caller catches and
      prints it). */
  datatype Trace = Trace(steps: seq<Step>, raised: bool)

  const Ready := "Ready to manage packages"
  const Latest := "You have the latest version"

  function Checking(name: string): string { "Checking if " + name + " is installed...." }
  function NotFound(name: string): string { name + " not found" }
  function AlreadyInstalled(name: string): string { "'" + name + "' is already installed" }
  function CheckingLatest(name: string): string { "Checking if " + name + " is the latest version" }
  function Installing(name: string): string { "Installing " + name + "...." }
  function Uninstalling(name: string): string { "Uninstalling " + name + "...." }
  function Upgrading(name: string): string { "Upgrading " + name + " " }

  /** The error notice: note that there is no blank between the verb and the
      quoted name. */
  function FailureNotice(operation: string, name: string, message: string): string
  {
    "Failed to " + operation + "'" + name + "'\n" + message
  }

  predicate IsMutating(c: Call)
  {
    c == InstallCall || c == UninstallCall || c == UpgradeCall
  }

  predicate IsChange(s: Step)
  {
    s.Gw? && IsMutating(s.call)
  }

  /** How many steps of `steps` are calls that change the installation. */
  function Mutations(steps: seq<Step>): nat
  {
    if steps == [] then 0 else (if IsChange(steps[0]) then 1 else 0) + Mutations(steps[1..])
  }

  /** Every installer command in `steps` comes right after a status-line
      update at level loading, which announces it. */
  predicate Announced(steps: seq<Step>)
  {
    forall k :: 0 <= k < |steps| && steps[k].Gw? ==>
      0 < k && steps[k - 1].Ev? && steps[k - 1].event.StatusUi? && steps[k - 1].event.level == Loading
  }

  function Then(t: Trace, u: Trace): Trace
  {
    Trace(t.steps + u.steps, t.raised || u.raised)
  }

  /** A status-line update at level loading followed at once by the
      installer command it announces: the way every command is issued. */
  function Announce(message: string, c: Call): seq<Step>
  {
    [Ev(StatusUi(message, Loading)), Gw(c)]
  }

  /** The same message on the status line and in an information window. */
  function Notice(message: string, level: Level): seq<Step>
  {
    [Ev(StatusUi(message, level)), Ev(InfoWin(message))]
  }

  /** `sync_status`: the outcome on the status line and in a notice, then the
      idle reset. */
  function SyncStatus(operation: string, name: string, r: Reply): seq<Step>
  {
    if r.ok then Notice(r.message, Success) + [Ev(Status(Ready, Info))]
    else [Ev(StatusUi(r.message, Error)), Ev(ErrWin(FailureNotice(operation, name, r.message))), Ev(Status(Ready, Info))]
  }

  /** `run_operations_`: the part of a run after the existence check. */
  function RunOperations(name: string, operation: string, gw: Gateway): Trace
  {
    if operation == "install" then
      Trace(Announce(Installing(name), InstallCall) + SyncStatus(operation, name, gw.install), false)
    else if operation == "upgrade" then
      var checking := Announce(CheckingLatest(name), IndexVersions);
      var v := gw.checkVersion;
      if v.None? then
        // unpacking `None` into two names raises TypeError
        Trace(checking, true)
      else if v.value.ok then
        Trace(checking + Announce(Upgrading(name), UpgradeCall) + SyncStatus(operation, name, gw.upgrade), false)
      else
        Trace(checking + Notice(Latest, Loading), false)
    else if operation == "uninstall" then
      Trace(Announce(Uninstalling(name), UninstallCall) + SyncStatus(operation, name, gw.uninstall), false)
    else
      Trace([], false)
  }

  /** The whole run the constructor performs (`is_package_installed` and what
      it leads to): the reference the `Operations` class is proved against.
      It always opens with the existence-check status and then the `pip show`
      command. */
  function Run(name: string, operation: string, gw: Gateway): (t: Trace)
    ensures |t.steps| >= 2 && t.steps[0] == Ev(StatusUi(Checking(name), Loading)) && t.steps[1] == Gw(Show)
    ensures t.raised <==> operation == "upgrade" && gw.checkInstalled.ok && gw.checkVersion.None?
  {
    var installed := gw.checkInstalled.ok;
    var rest :=
      if operation == "uninstall" || operation == "upgrade" then
        if installed then RunOperations(name, operation, gw)
        else Trace(Notice(NotFound(name), Info), false)
      else if installed then Trace(Notice(AlreadyInstalled(name), Info), false)
      else RunOperations(name, operation, gw);
    Then(Trace(Announce(Checking(name), Show), false), rest)
  }

  // ---------------------------------------------------------------------
  // What a run does, case by case

  /** `uninstall` or `upgrade` of a package that is not installed: a
      not-found notice on the status line (level info) and in a window, and
      no further command. */
  lemma RunNotFound(name: string, operation: string, gw: Gateway)
    requires operation == "uninstall" || operation == "upgrade"
    requires !gw.checkInstalled.ok
    ensures Run(name, operation, gw) == Trace(Announce(Checking(name), Show) + Notice(NotFound(name), Info), false)
  {
  }

  /** Any other operation on an installed package, `install` included,
      reports that the package is already installed and installs nothing. */
  lemma RunAlreadyInstalled(name: string, operation: string, gw: Gateway)
    requires operation != "uninstall" && operation != "upgrade"
    requires gw.checkInstalled.ok
    ensures Run(name, operation, gw) == Trace(Announce(Checking(name), Show) + Notice(AlreadyInstalled(name), Info), false)
  {
  }

  /** `install` of an absent package announces the installation, calls
      `install_package` exactly once and reports its outcome. */
  lemma RunInstall(name: string, gw: Gateway)
    requires !gw.checkInstalled.ok
    ensures Run(name, "install", gw) == Trace(
      Announce(Checking(name), Show) + Announce(Installing(name), InstallCall)
        + SyncStatus("install", name, gw.install), false)
  {
  }

  /** `uninstall` of an installed package announces the removal, calls
      `uninstall_package` exactly once and reports its outcome. */
  lemma RunUninstall(name: string, gw: Gateway)
    requires gw.checkInstalled.ok
    ensures Run(name, "uninstall", gw) == Trace(
      Announce(Checking(name), Show) + Announce(Uninstalling(name), UninstallCall)
        + SyncStatus("uninstall", name, gw.uninstall), false)
  {
  }

  /** `upgrade` of an installed package calls `upgrade_package` exactly
      when the version check answers True, and then after announcing it. */
  lemma RunUpgradeCalls(name: string, gw: Gateway)
    requires gw.checkInstalled.ok
    ensures Gw(UpgradeCall) in Run(name, "upgrade", gw).steps <==> gw.checkVersion.Some? && gw.checkVersion.value.ok
    ensures gw.checkVersion.Some? && gw.checkVersion.value.ok ==>
      Run(name, "upgrade", gw) == Trace(
        Announce(Checking(name), Show) + Announce(CheckingLatest(name), IndexVersions)
          + Announce(Upgrading(name), UpgradeCall) + SyncStatus("upgrade", name, gw.upgrade), false)
  {
  }

  /** When the version check answers False, for whatever reason (equal
      versions or a parse failure), the run says "You have the latest
      version" at level loading, in a window too, and upgrades nothing. */
  lemma RunLatestVersion(name: string, gw: Gateway)
    requires gw.checkInstalled.ok
    requires gw.checkVersion.Some? && !gw.checkVersion.value.ok
    ensures Run(name, "upgrade", gw) == Trace(
      Announce(Checking(name), Show) + Announce(CheckingLatest(name), IndexVersions) + Notice(Latest, Loading), false)
  {
  }

  /** When the version query itself fails, `check_package_version` returns
      nothing, unpacking it raises, and the run stops right after the
      version query: no notice, no changing call, no idle reset. */
  lemma RunVersionQueryFails(name: string, gw: Gateway)
    requires gw.checkInstalled.ok && gw.checkVersion.None?
    ensures Run(name, "upgrade", gw) == Trace(
      Announce(Checking(name), Show) + Announce(CheckingLatest(name), IndexVersions), true)
  {
  }

  /** An operation name the orchestrator does not know, on a package that is
      not installed, produces nothing after the existence check. */
  lemma RunUnknownOperation(name: string, operation: string, gw: Gateway)
    requires operation !in {"install", "upgrade", "uninstall"}
    requires !gw.checkInstalled.ok
    ensures Run(name, operation, gw) == Trace(Announce(Checking(name), Show), false)
  {
  }

  // ---------------------------------------------------------------------
  // Properties of every run

  /** The answer of the changing call `c`. */
  function ReplyTo(gw: Gateway, c: Call): Reply
    requires IsMutating(c)
  {
    match c
    case InstallCall => gw.install
    case UninstallCall => gw.uninstall
    case UpgradeCall => gw.upgrade
  }

  lemma {:induction false} MutationsAppend(a: seq<Step>, b: seq<Step>)
    ensures Mutations(a + b) == Mutations(a) + Mutations(b)
  {
    if a == [] {
      assert a + b == b;
    } else {
      assert (a + b)[1..] == a[1..] + b;
      MutationsAppend(a[1..], b);
    }
  }

  lemma AnnouncedAppend(a: seq<Step>, b: seq<Step>)
    requires Announced(a) && Announced(b)
    ensures Announced(a + b)
  {
    forall k | 0 <= k < |a + b| && (a + b)[k].Gw?
      ensures 0 < k && (a + b)[k - 1].Ev? && (a + b)[k - 1].event.StatusUi? && (a + b)[k - 1].event.level == Loading
    {
      if k >= |a| {
        assert (a + b)[k] == b[k - |a|];
        assert (a + b)[k - 1] == b[k - |a| - 1];
      }
    }
  }

  /** An announced command issues one command, right after its
      announcement, and changes the installation when that command does. */
  lemma AnnounceFacts(message: string, c: Call)
    ensures Announced(Announce(message, c)) && Ev(Status(Ready, Info)) !in Announce(message, c)
    ensures Mutations(Announce(message, c)) == if IsMutating(c) then 1 else 0
  {
    var a := Announce(message, c);
    assert a[1..] == [Gw(c)] && a[1..][1..] == [];
    assert Mutations(a[1..]) == if IsMutating(c) then 1 else 0;
  }

  /** A notice issues no command. */
  lemma NoticeFacts(message: string, level: Level)
    ensures Announced(Notice(message, level)) && Ev(Status(Ready, Info)) !in Notice(message, level)
    ensures Mutations(Notice(message, level)) == 0
  {
    var n := Notice(message, level);
    assert n[1..][1..] == [];
    assert Mutations(n[1..]) == 0;
  }

  /** `sync_status` issues no command. */
  lemma SyncFacts(operation: string, name: string, r: Reply)
    ensures Announced(SyncStatus(operation, name, r)) && Mutations(SyncStatus(operation, name, r)) == 0
  {
    var sync := SyncStatus(operation, name, r);
    assert sync[1..][1..][1..] == [];
    assert Mutations(sync[1..][1..]) == 0;
    assert Mutations(sync[1..]) == 0;
  }

  /** Two pieces in a row: the counts add up, the announcements and the
      absence of the idle reset carry over. */
  lemma Joined(a: seq<Step>, b: seq<Step>)
    requires Announced(a) && Announced(b)
    ensures Announced(a + b) && Mutations(a + b) == Mutations(a) + Mutations(b)
    ensures Ev(Status(Ready, Info)) in a + b <==> Ev(Status(Ready, Info)) in a || Ev(Status(Ready, Info)) in b
  {
    AnnouncedAppend(a, b);
    MutationsAppend(a, b);
  }

  /** When a run changes the installation: installing an absent package,
      uninstalling an installed one, or upgrading an installed one whose
      version check answers True. */
  predicate Changes(operation: string, gw: Gateway)
  {
    || (operation == "install" && !gw.checkInstalled.ok)
    || (operation == "uninstall" && gw.checkInstalled.ok)
    || (operation == "upgrade" && gw.checkInstalled.ok && gw.checkVersion.Some? && gw.checkVersion.value.ok)
  }

  /** A run that changes nothing issues no changing call, announces every
      command and never reaches the idle reset. */
  lemma {:induction false} RunQuiet(name: string, operation: string, gw: Gateway)
    requires !Changes(operation, gw)
    ensures var t := Run(name, operation, gw);
      Mutations(t.steps) == 0 && Ev(Status(Ready, Info)) !in t.steps && Announced(t.steps)
  {
    var opening := Announce(Checking(name), Show);
    AnnounceFacts(Checking(name), Show);
    if operation == "uninstall" || operation == "upgrade" {
      if !gw.checkInstalled.ok {
        RunNotFound(name, operation, gw);
        NoticeFacts(NotFound(name), Info);
        Joined(opening, Notice(NotFound(name), Info));
      } else {
        var checking := Announce(CheckingLatest(name), IndexVersions);
        AnnounceFacts(CheckingLatest(name), IndexVersions);
        Joined(opening, checking);
        if gw.checkVersion.None? {
          RunVersionQueryFails(name, gw);
        } else {
          RunLatestVersion(name, gw);
          NoticeFacts(Latest, Loading);
          Joined(opening + checking, Notice(Latest, Loading));
        }
      }
    } else if gw.checkInstalled.ok {
      RunAlreadyInstalled(name, operation, gw);
      NoticeFacts(AlreadyInstalled(name), Info);
      Joined(opening, Notice(AlreadyInstalled(name), Info));
    } else {
      RunUnknownOperation(name, operation, gw);
    }
  }

  /** The last four steps of a log that ends with an announced command and
      `sync_status`. */
  lemma SyncTail(prefix: seq<Step>, message: string, c: Call, operation: string, name: string, r: Reply)
    ensures var s := prefix + Announce(message, c) + SyncStatus(operation, name, r);
      && |s| >= 4 && s[|s| - 4] == Gw(c) && s[|s| - 3..] == SyncStatus(operation, name, r)
      && Ev(Status(Ready, Info)) in s
  {
    var s := prefix + Announce(message, c) + SyncStatus(operation, name, r);
    assert s[|s| - 4] == Gw(c);
    assert s[|s| - 1] == Ev(Status(Ready, Info));
    assert s[|s| - 3..] == SyncStatus(operation, name, r);
  }

  /** `steps` holds exactly one changing call, announces every command,
      and ends with that call followed by `sync_status` for its answer. */
  ghost predicate SyncedChange(steps: seq<Step>, operation: string, name: string, gw: Gateway)
  {
    && Mutations(steps) == 1 && Ev(Status(Ready, Info)) in steps && Announced(steps)
    && |steps| >= 4 && IsChange(steps[|steps| - 4])
    && steps[|steps| - 3..] == SyncStatus(operation, name, ReplyTo(gw, steps[|steps| - 4].call))
  }

  /** A log made of an announced prefix without changing calls, one
      announced changing call and the `sync_status` events for that call's
      answer. */
  lemma ChangeThenSync(prefix: seq<Step>, message: string, c: Call, operation: string, name: string,
                       gw: Gateway, r: Reply)
    requires Announced(prefix) && Mutations(prefix) == 0
    requires IsMutating(c) && r == ReplyTo(gw, c)
    ensures SyncedChange(prefix + Announce(message, c) + SyncStatus(operation, name, r), operation, name, gw)
  {
    OneChange(prefix, message, c, operation, name, r);
    SyncTail(prefix, message, c, operation, name, r);
  }

  lemma OneChange(prefix: seq<Step>, message: string, c: Call, operation: string, name: string, r: Reply)
    requires Announced(prefix) && Mutations(prefix) == 0
    requires IsMutating(c)
    ensures var s := prefix + Announce(message, c) + SyncStatus(operation, name, r);
      Mutations(s) == 1 && Announced(s)
  {
    AnnounceFacts(message, c);
    SyncFacts(operation, name, r);
    Joined(prefix, Announce(message, c));
    Joined(prefix + Announce(message, c), SyncStatus(operation, name, r));
  }

  /** A run that changes the installation issues its one changing call right
      after announcing it, and `sync_status` then reports that call's answer
      and ends the log with the idle reset. */
  lemma {:induction false} RunChanging(name: string, operation: string, gw: Gateway)
    requires Changes(operation, gw)
    ensures SyncedChange(Run(name, operation, gw).steps, operation, name, gw)
  {
    var opening := Announce(Checking(name), Show);
    AnnounceFacts(Checking(name), Show);
    if operation == "install" {
      RunInstall(name, gw);
      ChangeThenSync(opening, Installing(name), InstallCall, operation, name, gw, gw.install);
    } else if operation == "uninstall" {
      RunUninstall(name, gw);
      ChangeThenSync(opening, Uninstalling(name), UninstallCall, operation, name, gw, gw.uninstall);
    } else {
      RunUpgradeCalls(name, gw);
      var checking := Announce(CheckingLatest(name), IndexVersions);
      AnnounceFacts(CheckingLatest(name), IndexVersions);
      Joined(opening, checking);
      ChangeThenSync(opening + checking, Upgrading(name), UpgradeCall, operation, name, gw, gw.upgrade);
    }
  }

  /** `sync_status` runs exactly when a changing call was made: then the
      changing call is followed directly by its outcome events, which report
      that call's answer and end the log with the idle reset; otherwise the
      idle reset never occurs. */
  lemma RunIdleReset(name: string, operation: string, gw: Gateway)
    ensures var t := Run(name, operation, gw);
      && (Ev(Status(Ready, Info)) in t.steps <==> Mutations(t.steps) == 1)
      && (Mutations(t.steps) == 1 ==>
            |t.steps| >= 4 && IsChange(t.steps[|t.steps| - 4])
            && t.steps[|t.steps| - 3..] == SyncStatus(operation, name, ReplyTo(gw, t.steps[|t.steps| - 4].call)))
  {
    if Changes(operation, gw) {
      RunChanging(name, operation, gw);
    } else {
      RunQuiet(name, operation, gw);
    }
  }

  /** A run makes at most one call that changes the installation, and makes
      one exactly in the cases `Changes` lists. */
  lemma RunChangesAtMostOnce(name: string, operation: string, gw: Gateway)
    ensures Mutations(Run(name, operation, gw).steps) <= 1
    ensures Mutations(Run(name, operation, gw).steps) == 1 <==> Changes(operation, gw)
  {
    if Changes(operation, gw) {
      RunChanging(name, operation, gw);
    } else {
      RunQuiet(name, operation, gw);
    }
  }

  /** Every installer command a run issues comes right after a status-line
      update at level loading: the user is told what is going on before each
      command starts. */
  lemma RunAnnouncesCalls(name: string, operation: string, gw: Gateway)
    ensures Announced(Run(name, operation, gw).steps)
  {
    if Changes(operation, gw) {
      RunChanging(name, operation, gw);
    } else {
      RunQuiet(name, operation, gw);
    }
  }

  /** Failed uninstall of an installed package: the error notice is the
      verb, the quoted name with no blank before it, a line break and the
      gateway's message; the idle reset comes last. */
  lemma RunUninstallFails(name: string, gw: Gateway)
    requires gw.checkInstalled.ok && !gw.uninstall.ok
    ensures var t := Run(name, "uninstall", gw);
      |t.steps| >= 2
      && t.steps[|t.steps| - 2] == Ev(ErrWin(FailureNotice("uninstall", name, gw.uninstall.message)))
      && t.steps[|t.steps| - 1] == Ev(Status(Ready, Info))
    ensures FailureNotice("uninstall", name, gw.uninstall.message)[|"Failed to uninstall"|] == '\''
  {
    RunUninstall(name, gw);
  }

  /** A version query whose output lacks the installed or the latest
      version makes the upgrade stop at "You have the latest version", like
      equal versions. */
  lemma RunParseFailureIsLatest(name: string, show: ProcessOutcome, install: ProcessOutcome,
                                uninstall: ProcessOutcome, upgrade: ProcessOutcome, index: ProcessOutcome)
    requires Succeeded(show) && Succeeded(index)
    ensures Search(index.stdout, "INSTALLED:").None? || Search(index.stdout, "LATEST:").None? ==>
      Run(name, "upgrade", GatewayOf(show, install, uninstall, upgrade, index)) == Trace(
        Announce(Checking(name), Show) + Announce(CheckingLatest(name), IndexVersions) + Notice(Latest, Loading), false)
  {
    MissingVersion(index);
    if Search(index.stdout, "INSTALLED:").None? || Search(index.stdout, "LATEST:").None? {
      RunLatestVersion(name, GatewayOf(show, install, uninstall, upgrade, index));
    }
  }

  /** The three operation names are distinct. */
  lemma OperationNamesDiffer()
    ensures "install" != "upgrade" && "install" != "uninstall" && "upgrade" != "uninstall"
  {
    assert "install"[1] != "upgrade"[1];
    assert |"install"| != |"uninstall"| && |"upgrade"| != |"uninstall"|;
  }

  /** Two single steps appended one after the other. */
  lemma Extend(before: seq<Step>, piece: seq<Step>)
    requires |piece| == 2
    ensures before + [piece[0]] + [piece[1]] == before + piece
  {
  }

  lemma AppendAssoc(a: seq<Step>, b: seq<Step>, c: seq<Step>)
    ensures a + b + c == a + (b + c)
  {
  }

  /** The orchestrator object. Its fields are the request, the gateway's
      answers and the log of what the run did. */
  class Operations {
    const name: string
    const operation: string
    const gateway: Gateway
    var steps: seq<Step>
    var raised: bool

    /** `__init__`: stores the request and runs it at once. */
    constructor (name: string, operation: string, gateway: Gateway)
      ensures this.name == name && this.operation == operation && this.gateway == gateway
      ensures Trace(steps, raised) == Run(name, operation, gateway)
    {
      this.name := name;
      this.operation := operation;
      this.gateway := gateway;
      steps := [];
      raised := false;
      new;
      raised := IsPackageInstalled();
    }

    // The four callbacks.

    method UpdateStatusUi(message: string, level: Level)
      modifies this`steps
      ensures steps == old(steps) + [Ev(StatusUi(message, level))]
    {
      steps := steps + [Ev(StatusUi(message, level))];
    }

    method ShowInfoWin(message: string)
      modifies this`steps
      ensures steps == old(steps) + [Ev(InfoWin(message))]
    {
      steps := steps + [Ev(InfoWin(message))];
    }

    method ShowErrWin(message: string)
      modifies this`steps
      ensures steps == old(steps) + [Ev(ErrWin(message))]
    {
      steps := steps + [Ev(ErrWin(message))];
    }

    method UpdateStatus(message: string, level: Level)
      modifies this`steps
      ensures steps == old(steps) + [Ev(Status(message, level))]
    {
      steps := steps + [Ev(Status(message, level))];
    }

    // The gateway operations: each issues its installer command, which is
    // logged, and returns what the gateway answers.

    method CheckPackageIfInstalled() returns (r: Reply)
      modifies this`steps
      ensures steps == old(steps) + [Gw(Show)] && r == gateway.checkInstalled
    {
      steps := steps + [Gw(Show)];
      r := gateway.checkInstalled;
    }

    method InstallPackage() returns (r: Reply)
      modifies this`steps
      ensures steps == old(steps) + [Gw(InstallCall)] && r == gateway.install
    {
      steps := steps + [Gw(InstallCall)];
      r := gateway.install;
    }

    method UninstallPackage() returns (r: Reply)
      modifies this`steps
      ensures steps == old(steps) + [Gw(UninstallCall)] && r == gateway.uninstall
    {
      steps := steps + [Gw(UninstallCall)];
      r := gateway.uninstall;
    }

    method UpgradePackage() returns (r: Reply)
      modifies this`steps
      ensures steps == old(steps) + [Gw(UpgradeCall)] && r == gateway.upgrade
    {
      steps := steps + [Gw(UpgradeCall)];
      r := gateway.upgrade;
    }

    method CheckPackageVersion() returns (r: Option<Reply>)
      modifies this`steps
      ensures steps == old(steps) + [Gw(IndexVersions)] && r == gateway.checkVersion
    {
      steps := steps + [Gw(IndexVersions)];
      r := gateway.checkVersion;
    }

    /** `sync_status`. */
    method SyncStatusOf(success: bool, message: string)
      modifies this`steps
      ensures steps == old(steps) + SyncStatus(operation, name, Reply(success, message))
    {
      if success {
        UpdateStatusUi(message, Success);
        ShowInfoWin(message);
      } else {
        UpdateStatusUi(message, Error);
        ShowErrWin(FailureNotice(operation, name, message));
      }
      UpdateStatus(Ready, Info);
    }

    /** `run_operations_`; `failed` says the run raised. */
    method RunOperationsOf() returns (failed: bool)
      modifies this`steps
      ensures steps == old(steps) + RunOperations(name, operation, gateway).steps
      ensures failed == RunOperations(name, operation, gateway).raised
    {
      OperationNamesDiffer();
      failed := false;
      if operation == "install" {
        UpdateStatusUi(Installing(name), Loading);
        var r := InstallPackage();
        ghost var installing := Announce(Installing(name), InstallCall);
        Extend(old(steps), installing);
        SyncStatusOf(r.ok, r.message);
        AppendAssoc(old(steps), installing, SyncStatus(operation, name, r));
        assert RunOperations(name, operation, gateway) == Trace(installing + SyncStatus(operation, name, r), false);
        assert steps == old(steps) + RunOperations(name, operation, gateway).steps;
      }
      if operation == "upgrade" {
        UpdateStatusUi(CheckingLatest(name), Loading);
        var v := CheckPackageVersion();
        ghost var checking := Announce(CheckingLatest(name), IndexVersions);
        Extend(old(steps), checking);
        if v.None? {
          // unpacking `None` raises TypeError: the run stops here
          assert RunOperations(name, operation, gateway) == Trace(checking, true);
          return true;
        }
        if v.value.ok {
          UpdateStatusUi(Upgrading(name), Loading);
          var r := UpgradePackage();
          ghost var upgrading := Announce(Upgrading(name), UpgradeCall);
          Extend(old(steps) + checking, upgrading);
          AppendAssoc(old(steps), checking, upgrading);
          SyncStatusOf(r.ok, r.message);
          AppendAssoc(old(steps), checking + upgrading, SyncStatus(operation, name, r));
          assert RunOperations(name, operation, gateway)
            == Trace(checking + upgrading + SyncStatus(operation, name, r), false);
          assert steps == old(steps) + RunOperations(name, operation, gateway).steps;
        } else {
          UpdateStatusUi(Latest, Loading);
          ShowInfoWin(Latest);
          ghost var latest := Notice(Latest, Loading);
          Extend(old(steps) + checking, latest);
          AppendAssoc(old(steps), checking, latest);
          assert RunOperations(name, operation, gateway) == Trace(checking + latest, false);
          assert steps == old(steps) + RunOperations(name, operation, gateway).steps;
        }
      }
      if operation == "uninstall" {
        UpdateStatusUi(Uninstalling(name), Loading);
        var r := UninstallPackage();
        ghost var uninstalling := Announce(Uninstalling(name), UninstallCall);
        Extend(old(steps), uninstalling);
        SyncStatusOf(r.ok, r.message);
        AppendAssoc(old(steps), uninstalling, SyncStatus(operation, name, r));
        assert RunOperations(name, operation, gateway) == Trace(uninstalling + SyncStatus(operation, name, r), false);
        assert steps == old(steps) + RunOperations(name, operation, gateway).steps;
      }
    }

    /** `is_package_installed`: the whole run, starting from the log so far. */
    method IsPackageInstalled() returns (failed: bool)
      modifies this`steps
      ensures steps == old(steps) + Run(name, operation, gateway).steps
      ensures failed == Run(name, operation, gateway).raised
    {
      UpdateStatusUi(Checking(name), Loading);
      var installed := CheckPackageIfInstalled();
      ghost var opening := Announce(Checking(name), Show);
      assert steps == old(steps) + opening;
      ghost var rest: Trace;
      failed := false;
      if operation == "uninstall" || operation == "upgrade" {
        if installed.ok {
          rest := RunOperations(name, operation, gateway);
          failed := RunOperationsOf();
        } else {
          rest := Trace(Notice(NotFound(name), Info), false);
          UpdateStatusUi(NotFound(name), Info);
          ShowInfoWin(NotFound(name));
        }
      } else if installed.ok {
        rest := Trace(Notice(AlreadyInstalled(name), Info), false);
        UpdateStatusUi(AlreadyInstalled(name), Info);
        ShowInfoWin(AlreadyInstalled(name));
      } else {
        rest := RunOperations(name, operation, gateway);
        failed := RunOperationsOf();
      }
      assert Run(name, operation, gateway) == Then(Trace(opening, false), rest);
      AppendAssoc(old(steps), opening, rest.steps);
    }
  }
}
