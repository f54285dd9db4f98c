# PythonPackageManager in Dafny

A verified model of the core of PythonPackageManager. This desktop tool
installs, upgrades, uninstalls, lists and inspects Python packages by
running the package installer (`pip`, and `uv pip` for the outdated list).
It reads what the installer prints. The project has four modules, one per
file:

- `Strings` (`strings.dfy`): the text operations the core relies on. These
  are `in` on strings, `str.lower`, `str.strip` and `str.splitlines`, plus an
  `Option` type.
- `PackageManager` (`package_manager.dfy`): the installer gateway
  (`core/package_manager.py`). Running a process is not modelled; each
  operation takes the process's outcome as a `ProcessOutcome` value.
  - `Exited(returnCode, stdout, stderr)` is a process that ran.
  - `Raised(error)` is a process whose start raised an exception.
  - The listings also take, as a `Json` value, what `json.loads` makes of
    the output.
  - The version check models `re.search(r"INSTALLED:\s*(\d+\.\d+\.\d+)", …)`
    with a scanner. The scanner finds the first position where the pattern
    matches and takes the greedy capture there.
- `BaseOperation` (`base_operation.dfy`): the orchestrator `Operations`
  (`core/base_operation.py`).
  - A run leaves one ordered log of `Step`s. A step is either an `Event`
    (one of the four callbacks) or a `Call` (one gateway command), so the
    log shows every status, notice and command in the order they happen.
  - What the gateway answers for the package is a `Gateway` value.
    `GatewayOf` builds that value from the process outcomes through the
    `PackageManager` functions.
  - `Run` is a pure reference for the whole run. The class is proved to
    produce exactly `Run`'s log, and the lemmas state the run's
    behaviour case by case.
- `PackagesWindow` (`packages_window.dfy`): the non-visual logic of the
  package list window (`gui/packages_window.py`).
  - Filtering by the search text.
  - Filling the table with numbered rows.
  - Reading the selected package's name, and mapping it to its folder name.
  - The table is a sequence of rows of cells. Items are identified by
    their position. The selection is a sequence of positions.

Behaviour of the code that the model keeps as written:

- The error notice of a failed operation has no blank before the quoted
  name: `sync_status` builds `Failed to uninstall'flask'` followed by a line
  break and the message. See `RunUninstallFails` and `FailureNotice`.
- A version query whose output lacks either version token returns
  `(False, "Failed to parse version information")`. The orchestrator only
  looks at the boolean, so the run reports "You have the latest version",
  exactly as for equal versions. See `CheckPackageVersion`,
  `MissingVersion` and `RunParseFailureIsLatest`.
- When the version query command itself fails, `check_package_version`
  falls off its end and returns `None`. Unpacking that raises `TypeError`.
  The thread's `except` catches it, so the run ends after "Checking if …
  is the latest version", with no notice and no idle reset. See
  `RunVersionQueryFails`.
- The idle reset ("Ready to manage packages") happens only in
  `sync_status`, after a changing call. It does not happen after the
  not-found, already-installed or latest-version outcomes. See
  `RunIdleReset`.
- Detail values keep everything after the first colon, including the
  leading blank (`"Name: x"` gives key `"Name"` and value `" x"`). See
  `DetailsRoundTrip`.

## Model

| member | source | states |
|---|---|---|
| Strings.SubstringAt | gui/packages_window.py:241 | `query in name` holds exactly when the query occurs at some position of the name |
| Strings.Lower | gui/packages_window.py:239 | lower-casing keeps the length, maps every character through the ASCII lower-case map and leaves no upper-case letter |
| Strings.SpacesEnd | core/package_manager.py:262-263 | the run of white space from a position, as `\s*` and the start of `str.strip` scan it greedily: everything skipped is white space and the scan stops at the end or at a non-space |
| Strings.SpacesStart | gui/packages_window.py:239 | the run of white space up to a position: everything skipped is white space and the scan stops at the start or after a non-space |
| Strings.Strip | gui/packages_window.py:239 | the result is the part of the text from some offset on; everything before that offset and everything after the part kept is white space; neither end of the result is white space |
| Strings.StripUnique | gui/packages_window.py:239 | those properties fix the result: any part of the text with only white space around it and none at its ends is what stripping keeps |
| Strings.StripChars | gui/packages_window.py:239 | stripping only drops characters: every character of the result occurs in the text |
| Strings.StripBlank | gui/packages_window.py:239 | a text made only of white space strips to the empty string |
| Strings.SplitLines | core/package_manager.py:241 | no line holds a line break; a non-empty text has at least one line; a non-empty text without a break is one line, itself |
| Strings.SplitLinesCons | core/package_manager.py:241 | a line without a break, followed by a break, is split off as the first line and the rest is split on its own |
| Strings.SplitUnlines | core/package_manager.py:241 | splitting the text of break-free lines, each followed by a break, gives back exactly those lines |
| PackageManager.RunPipCommand | core/package_manager.py:33-54 | success exactly when the process exited with code 0; the streams pass through unchanged; an exception gives empty output and the exception text as error |
| PackageManager.CheckPackageIfInstalled | core/package_manager.py:57-75 | reports installed exactly when `pip show` succeeded, with its output; otherwise the error text |
| PackageManager.InstallPackage | core/package_manager.py:140-159 | succeeds exactly when the command succeeded and printed something; a silent success is a failure carrying the error stream |
| PackageManager.UninstallPackage | core/package_manager.py:162-181 | succeeds exactly when `pip uninstall --yes` succeeded, with its output; otherwise the error text |
| PackageManager.UpgradePackage | core/package_manager.py:184-213 | succeeds exactly when `pip install --upgrade` succeeded, with its output; otherwise the error text |
| PackageManager.GetInstalledPackages | core/package_manager.py:78-105 | empty when the command failed, the output is not a JSON array, or any record lacks `name` or `version`; otherwise exactly one `(name, version)` per record, in order |
| PackageManager.GetOutdatedPackages | core/package_manager.py:108-137 | empty when the command failed, the output is not a JSON array, or any record lacks `name`, `version` or `latest_version`; otherwise exactly one triple per record, in order |
| PackageManager.SplitAtColon | core/package_manager.py:242 | nothing exactly when the line has no colon; otherwise a key without a colon that, joined by a colon to the value, gives back the line |
| PackageManager.DetailsOfSnoc | core/package_manager.py:241-243 | reading one more line with a colon assigns that line's value to its key in the dictionary built so far |
| PackageManager.GetPackagesDetails | core/package_manager.py:216-251 | nothing when the command failed; on success, nothing exactly when there are no lines or some line lacks a colon; a result is never empty and is the dictionary the lines assign |
| PackageManager.DetailsKeys | core/package_manager.py:241-243 | a key is in the details exactly when some line has that key |
| PackageManager.DetailsLastWins | core/package_manager.py:241-243 | a key maps to the value of the last line that has it |
| PackageManager.SplitAtColonOf | core/package_manager.py:242 | `key:value` with a colon-free key splits back into that key and value, however many colons the value holds |
| PackageManager.DetailsRoundTrip | core/package_manager.py:241-245 | parsing the text of distinct colon-free keys and break-free values gives back each key with its value |
| PackageManager.DigitsEnd | core/package_manager.py:262-263 | `\d+` runs greedily: everything skipped is a digit and the scan stops at the end or at a non-digit |
| PackageManager.VersionAt | core/package_manager.py:262-263 | a match at a position begins with the tag |
| PackageManager.VersionAtShape | core/package_manager.py:262-263 | what a match captures is a version: three non-empty digit runs joined by two dots |
| PackageManager.DigitsEndAt | core/package_manager.py:262-263 | a digit run that nothing extends is exactly where the greedy `\d+` stops |
| PackageManager.VersionAtComplete | core/package_manager.py:262-263 | wherever the tag is followed by white space and three maximal digit runs joined by dots, the pattern matches there and captures exactly those runs |
| PackageManager.VersionAtSound | core/package_manager.py:262-263 | the converse of completeness: a capture at a position always follows the tag, and is the three maximal digit runs, joined by dots, that come after the tag and its white space |
| PackageManager.SearchLeftmost | core/package_manager.py:262-263 | when the pattern matches at a position and at no earlier one, `re.search` captures what it matches there |
| PackageManager.FirstMatch | core/package_manager.py:262-263 | the position where `re.search` finds its match: the pattern matches there and at no earlier position |
| PackageManager.Search | core/package_manager.py:262-263 | no capture exactly when the pattern matches at no position |
| PackageManager.CheckPackageVersion | core/package_manager.py:254-275 | nothing exactly when the command failed; the parse failure exactly when either version is missing; a non-empty message is only the parse failure; "update available" only when both versions were found and differ |
| PackageManager.VersionComparison | core/package_manager.py:269-275 | with both versions found, the answer is "update available" exactly when the version strings differ, with no ordering; both are well-formed versions |
| PackageManager.MissingVersion | core/package_manager.py:262-267 | output lacking either version gives the parse failure, not "up to date"; output with no `INSTALLED:` text at all lacks the installed version |
| BaseOperation.Run | core/base_operation.py:22-37 | every run starts with the "Checking if … is installed...." status and the `pip show` call; it raises exactly when upgrading an installed package whose version query failed |
| BaseOperation.RunChangesAtMostOnce | core/base_operation.py:22-64 | a run makes at most one call that changes the installation, and makes one exactly when installing an absent package, uninstalling an installed one, or upgrading an installed one whose version check answers True |
| BaseOperation.RunQuiet | core/base_operation.py:22-64 | a run that changes nothing makes no changing call, announces every command and never reaches the idle reset |
| BaseOperation.RunChanging | core/base_operation.py:22-74 | a run that changes the installation makes one changing call right after announcing it, and then `sync_status` reports that call's answer and ends the log with the idle reset |
| BaseOperation.RunAnnouncesCalls | core/base_operation.py:22-64 | every installer command in a run comes right after a status-line update at level loading |
| BaseOperation.RunNotFound | core/base_operation.py:22-31 | uninstall or upgrade of an absent package: after the `pip show` call, a not-found status at level info and a notice, and nothing else |
| BaseOperation.RunAlreadyInstalled | core/base_operation.py:22-35 | any other operation on an installed package: after the `pip show` call, an already-installed status and a notice, and nothing else |
| BaseOperation.RunInstall | core/base_operation.py:36-45 | install of an absent package, in order: the existence check, "Installing …....", the install call, then its outcome and the idle reset |
| BaseOperation.RunUninstall | core/base_operation.py:59-64 | uninstall of an installed package, in order: the existence check, "Uninstalling …....", the uninstall call, then its outcome and the idle reset |
| BaseOperation.RunUpgradeCalls | core/base_operation.py:46-54 | an installed package is upgraded exactly when the version check answers True; the log is then, in order, the existence check, the announced version query, "Upgrading … ", the upgrade call, its outcome and the idle reset |
| BaseOperation.RunLatestVersion | core/base_operation.py:55-57 | when the version check answers False, the announced version query is followed by "You have the latest version" at level loading and in a notice, and nothing else |
| BaseOperation.RunVersionQueryFails | core/base_operation.py:50 | a version query that returns nothing ends the run, raising, right after the announced version query |
| BaseOperation.RunUnknownOperation | core/base_operation.py:36-37 | an operation name the orchestrator does not know, on an absent package, does nothing after the first status |
| BaseOperation.RunIdleReset | core/base_operation.py:66-74 | the idle reset occurs exactly when a changing call was made; then that call is followed directly by the three events that report its answer, the idle reset last |
| BaseOperation.RunUninstallFails | core/base_operation.py:66-74 | a failed uninstall of an installed package ends with the error notice and then the idle reset; in the notice the quote follows "Failed to uninstall" with no blank |
| BaseOperation.RunParseFailureIsLatest | core/base_operation.py:50-57 | version-query output lacking either version stops the upgrade at "You have the latest version", right after the announced version query |
| BaseOperation.Operations.constructor | core/base_operation.py:5-20 | constructing the object runs the request at once; the log it leaves is exactly the reference run |
| BaseOperation.Operations.UpdateStatusUi | gui/main_window.py:228-229 | appends one status step with the given level to the log |
| BaseOperation.Operations.ShowInfoWin | gui/main_window.py:221-223 | appends one information-notice step |
| BaseOperation.Operations.ShowErrWin | gui/main_window.py:225-226 | appends one error-notice step |
| BaseOperation.Operations.UpdateStatus | gui/main_window.py:168 | appends one idle-reset step |
| BaseOperation.Operations.CheckPackageIfInstalled | core/base_operation.py:24 | appends the `pip show` call step and returns the gateway's answer |
| BaseOperation.Operations.InstallPackage | core/base_operation.py:44 | appends the install call step and returns the gateway's answer |
| BaseOperation.Operations.UninstallPackage | core/base_operation.py:63 | appends the uninstall call step and returns the gateway's answer |
| BaseOperation.Operations.UpgradePackage | core/base_operation.py:53 | appends the upgrade call step and returns the gateway's answer |
| BaseOperation.Operations.CheckPackageVersion | core/base_operation.py:50 | appends the version-query call step and returns the gateway's answer |
| BaseOperation.Operations.SyncStatusOf | core/base_operation.py:66-74 | appends, in order, the outcome status, the information or error notice, and the idle reset |
| BaseOperation.Operations.RunOperationsOf | core/base_operation.py:39-64 | appends exactly the steps of the reference run after the existence check, in order, and reports whether it raised |
| BaseOperation.Operations.IsPackageInstalled | core/base_operation.py:22-37 | appends exactly the steps of the reference run, in order, and reports whether it raised |
| PackagesWindow.Query | gui/packages_window.py:239 | the query is no longer than the search text, holds no upper-case letter and neither starts nor ends with white space |
| PackagesWindow.Filter | gui/packages_window.py:241 | the filtered list is never longer than the list |
| PackagesWindow.FilterKeeps | gui/packages_window.py:239-241 | a package is kept exactly when it is in the list and the query occurs in its name |
| PackagesWindow.FilterCounts | gui/packages_window.py:241 | every copy of a matching package is kept and no copy of any other, so duplicates keep their number |
| PackagesWindow.FilterIsSubsequence | gui/packages_window.py:241 | the filter keeps packages in their original order |
| PackagesWindow.FilterEmptyQuery | gui/packages_window.py:241 | an empty query keeps every package |
| PackagesWindow.BlankSearchKeepsAll | gui/packages_window.py:239-241 | a search text of white space only keeps every package |
| PackagesWindow.RowValues | gui/packages_window.py:233-234 | a row is its number followed by the package's fields, in order |
| PackagesWindow.FolderName | gui/packages_window.py:304 | every `-` becomes `_`, other characters are kept, no `-` is left, and a name without `-` is unchanged |
| PackagesWindow.PackageWindow.constructor | gui/packages_window.py:28-49 | a new window keeps its packages and folder and shows every package, numbered from 1, with nothing selected |
| PackagesWindow.PackageWindow.PopulateTreeview | gui/packages_window.py:225-234 | afterwards the table shows exactly the given packages, numbered from 1 in order, and the old rows and selection are gone |
| PackagesWindow.PackageWindow.FilterPackages | gui/packages_window.py:236-243 | the filtered list is the filter of the lower-cased, stripped search text, and the table shows it |
| PackagesWindow.PackageWindow.Select | gui/packages_window.py:249 | the selection becomes the given row |
| PackagesWindow.PackageWindow.GetSelectedPackage | gui/packages_window.py:274-281 | nothing exactly when nothing is selected; otherwise column 1 of the first selected row |
| PackagesWindow.PackageWindow.OpenPackageLocation | gui/packages_window.py:296-304 | a folder name exactly when a non-empty name is selected and the package folder is known; it is the name's folder name |
| PackagesWindow.ShiftSelection | gui/packages_window.py:228-229 | after the first row is deleted, the selection is no longer and every remaining position is one less than a previously selected position |
| PackagesWindow.NoRowsNoSelection | gui/packages_window.py:228-229 | with no rows left, nothing is selected |
| PackagesWindow.SelectedIsName | gui/packages_window.py:234 | column 1 of the row shown for a package is its name, and column 0 its row number |

## Left out

- Starting processes, the command lines and `sys.executable` are not modelled. Each process's outcome is an input; the model does not distinguish the three `except` clauses of `run_pip_command`, which behave the same.
- JSON decoding is an input value. Field values are strings. A non-array value that still iterates, such as an object or a string, counts as a failure here; in Python it yields nothing or raises, and both end in an empty list.
- Logging (`logger.error`) is not modelled: it has no effect the caller sees.
- Character classes cover ASCII only. White space is space, tab to carriage return and U+001C to U+001F. `\d`, `\s`, `str.lower` and `str.strip` in Python also cover characters beyond ASCII, such as U+0085 and U+00A0.
- `str.splitlines` is modelled with `\n` as the only line break; the other break characters are not handled.
- Threading is not modelled: `threading.Thread`, `self.after` and the `except Exception: print(e)` around a run. A run that raises is marked by `raised`. The log is the order in which the run calls its callbacks, not the order in which the window shows their effects. The worker thread calls `update_status` directly for the idle reset (core/base_operation.py:74, gui/main_window.py:168), while the status, information and error callbacks are deferred through `self.after(0, …)` (gui/main_window.py:222-229). The status line can therefore end on the outcome message instead of "Ready to manage packages".
- Tk widgets, message boxes, the clipboard and styling are not modelled. Neither are `get_packages_dir` (`site.getsitepackages`), `os.path.join`, `os.path.exists` or the explorer launch; the folder is an input, and the model stops at the folder name.
- Tk's conversion of cell values, which turns a numeric-looking name into a number, is not modelled.
- PackagesWindow.PackageWindow.GetSelectedPackage: an empty selection gives nothing here. In the code, indexing the empty selection raises `IndexError`, which Tk reports, and the action stops. The "No package selected" branch is unreachable because item ids are non-empty.
- `copy_package_name`, `uninstall_from_menu`, `show_package_details`, `show_package_details_window`, `update_from_menu`, `refresh_package` and `show_context_menu` are not modelled. They are presentation glue around the modelled gateway operations and `filter_packages`.
- `update_main_window_status` and the main window (`gui/main_window.py`) are not modelled, except the callbacks' default level "info".
