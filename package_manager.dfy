/** The installer gateway: how the outcome of one installer process is turned
    into the results the rest of the program sees. Running the process is not
    modelled; its outcome is an input (`ProcessOutcome`), and so is the value
    that decoding its JSON output gives (`Json`). */
module PackageManager {
  import opened Strings

  /** What one installer process did: it exited with a return code and the
      text it wrote to its two streams, or starting it raised an exception
      whose text is `error`. */
  datatype ProcessOutcome =
    | Exited(returnCode: int, stdout: string, stderr: string)
    | Raised(error: string)

  /** The `(success, stdout, stderr)` triple of `run_pip_command`. */
  datatype CommandResult = CommandResult(success: bool, stdout: string, stderr: string)

  /** The `(bool, text)` pair the single-package operations return. */
  datatype Reply = Reply(ok: bool, message: string)

  /** The process exited with return code 0. */
  predicate Succeeded(p: ProcessOutcome)
  {
    p.Exited? && p.returnCode == 0
  }

  /** The text that explains a failure: the error stream of a process that
      ran, or the exception text of one that could not be started. */
  function ErrorText(p: ProcessOutcome): string
  {
    if p.Exited? then p.stderr else p.error
  }

  /** `run_pip_command`: success is exactly a zero return code; an exception
      becomes a failure with empty output and the exception's text. */
  function RunPipCommand(p: ProcessOutcome): (r: CommandResult)
    ensures r.success <==> Succeeded(p)
    ensures p.Exited? ==> r.stdout == p.stdout && r.stderr == p.stderr
    ensures p.Raised? ==> r.stdout == "" && r.stderr == p.error
    ensures !r.success ==> r.stderr == ErrorText(p)
  {
    match p
    case Exited(code, out, err) => CommandResult(code == 0, out, err)
    case Raised(e) => CommandResult(false, "", e)
  }

  /** The reply reports success exactly when the command succeeded, with the
      command's output, and otherwise its error text. */
  predicate Verbatim(p: ProcessOutcome, r: Reply)
  {
    && (r.ok <==> Succeeded(p))
    && (r.ok ==> r.message == p.stdout)
    && (!r.ok ==> r.message == ErrorText(p))
  }

  /** `check_package_if_installed`: the outcome of `pip show <name>`. */
  function CheckPackageIfInstalled(p: ProcessOutcome): (r: Reply)
    ensures Verbatim(p, r)
  {
    var c := RunPipCommand(p);
    if c.success then Reply(true, c.stdout) else Reply(false, c.stderr)
  }

  /** `install_package`: succeeds only when the command succeeded AND wrote
      something to its output; a silent success is reported as a failure
      carrying the (possibly empty) error stream. */
  function InstallPackage(p: ProcessOutcome): (r: Reply)
    ensures r.ok <==> Succeeded(p) && p.stdout != ""
    ensures r.ok ==> r.message == p.stdout
    ensures !r.ok ==> r.message == ErrorText(p)
  {
    var c := RunPipCommand(p);
    if c.success && c.stdout != "" then Reply(true, c.stdout) else Reply(false, c.stderr)
  }

  /** `uninstall_package`: the outcome of `pip uninstall <name> --yes`. */
  function UninstallPackage(p: ProcessOutcome): (r: Reply)
    ensures Verbatim(p, r)
  {
    var c := RunPipCommand(p);
    if c.success then Reply(true, c.stdout) else Reply(false, c.stderr)
  }

  /** `upgrade_package`: the outcome of `pip install --upgrade <name>`. */
  function UpgradePackage(p: ProcessOutcome): (r: Reply)
    ensures Verbatim(p, r)
  {
    var c := RunPipCommand(p);
    if c.success then Reply(true, c.stdout) else Reply(false, c.stderr)
  }

  // ---------------------------------------------------------------------
  // Listings decoded from JSON

  /** One element of a decoded JSON array: an object (its string-valued
      fields) or any other JSON value. */
  datatype Item = Object(fields: map<string, string>) | NonObject

  /** What `json.loads` gives for the listing's output: a decoding error, an
      array, or some other JSON value (iterating over which and indexing the
      elements by field name raises, or yields nothing). */
  datatype Json = Undecodable | Array(items: seq<Item>) | NonArray

  datatype Installed = Installed(name: string, version: string)
  datatype Outdated = Outdated(name: string, version: string, latestVersion: string)

  /** The item is an object that has every one of `keys`. */
  predicate HasFields(it: Item, keys: set<string>)
  {
    it.Object? && keys <= it.fields.Keys
  }

  const InstalledKeys: set<string> := {"name", "version"}
  const OutdatedKeys: set<string> := {"name", "version", "latest_version"}

  /** `get_installed_packages`: one `(name, version)` per record, in order;
      an empty list when the command failed, the output did not decode to an
      array, or some record lacks a field. `decoded` is `json.loads` of the
      command's output. */
  method GetInstalledPackages(p: ProcessOutcome, decoded: Json) returns (packages: seq<Installed>)
    ensures !Succeeded(p) || !decoded.Array? ==> packages == []
    ensures decoded.Array? && (exists k :: 0 <= k < |decoded.items| && !HasFields(decoded.items[k], InstalledKeys))
      ==> packages == []
    ensures Succeeded(p) && decoded.Array? && (forall k :: 0 <= k < |decoded.items| ==> HasFields(decoded.items[k], InstalledKeys))
      ==> |packages| == |decoded.items|
          && forall k :: 0 <= k < |packages| ==>
               packages[k] == Installed(decoded.items[k].fields["name"], decoded.items[k].fields["version"])
  {
    var c := RunPipCommand(p);
    if !c.success {
      return [];
    }
    if !decoded.Array? {
      return [];
    }
    var items := decoded.items;
    packages := [];
    var i := 0;
    while i < |items|
      invariant 0 <= i <= |items|
      invariant forall k :: 0 <= k < i ==> HasFields(items[k], InstalledKeys)
      invariant |packages| == i
      invariant forall k :: 0 <= k < i ==>
        packages[k] == Installed(items[k].fields["name"], items[k].fields["version"])
    {
      var it := items[i];
      if !HasFields(it, InstalledKeys) {
        // the KeyError or TypeError is caught and the partial list dropped
        return [];
      }
      packages := packages + [Installed(it.fields["name"], it.fields["version"])];
      i := i + 1;
    }
  }

  /** `get_outdated_packages`: one `(name, version, latest_version)` per
      record, in order, with the same failure policy as the installed list. */
  method GetOutdatedPackages(p: ProcessOutcome, decoded: Json) returns (packages: seq<Outdated>)
    ensures !Succeeded(p) || !decoded.Array? ==> packages == []
    ensures decoded.Array? && (exists k :: 0 <= k < |decoded.items| && !HasFields(decoded.items[k], OutdatedKeys))
      ==> packages == []
    ensures Succeeded(p) && decoded.Array? && (forall k :: 0 <= k < |decoded.items| ==> HasFields(decoded.items[k], OutdatedKeys))
      ==> |packages| == |decoded.items|
          && forall k :: 0 <= k < |packages| ==>
               var f := decoded.items[k].fields;
               packages[k] == Outdated(f["name"], f["version"], f["latest_version"])
  {
    var c := RunPipCommand(p);
    if !c.success {
      return [];
    }
    if !decoded.Array? {
      return [];
    }
    var items := decoded.items;
    packages := [];
    var i := 0;
    while i < |items|
      invariant 0 <= i <= |items|
      invariant forall k :: 0 <= k < i ==> HasFields(items[k], OutdatedKeys)
      invariant |packages| == i
      invariant forall k :: 0 <= k < i ==>
        var f := items[k].fields;
        packages[k] == Outdated(f["name"], f["version"], f["latest_version"])
    {
      var it := items[i];
      if !HasFields(it, OutdatedKeys) {
        return [];
      }
      packages := packages + [Outdated(it.fields["name"], it.fields["version"], it.fields["latest_version"])];
      i := i + 1;
    }
  }

  // ---------------------------------------------------------------------
  // Package details: `key:value` lines

  /** `line.split(":", 1)` unpacked into two names: the text before the first
      colon and everything after it, or nothing when the line has no colon
      (the unpacking raises ValueError). */
  function SplitAtColon(line: string): (r: Option<(string, string)>)
    ensures r.None? <==> ':' !in line
    ensures r.Some? ==> ':' !in r.value.0 && r.value.0 + ":" + r.value.1 == line
  {
    var i := IndexOf(line, ':');
    if i == |line| then None
    else
      assert line == line[..i] + ":" + line[i + 1..];
      Some((line[..i], line[i + 1..]))
  }

  predicate AllHaveColon(lines: seq<string>)
  {
    forall k :: 0 <= k < |lines| ==> ':' in lines[k]
  }

  /** The dictionary the loop builds from lines that all hold a colon: each
      line assigns its value to its key, later lines overwriting earlier ones. */
  function DetailsOf(lines: seq<string>): map<string, string>
    requires AllHaveColon(lines)
  {
    if lines == [] then map[]
    else
      var last := lines[|lines| - 1];
      var kv := SplitAtColon(last).value;
      DetailsOf(lines[..|lines| - 1])[kv.0 := kv.1]
  }

  /** One more line with a colon assigns its key in the dictionary. */
  lemma DetailsOfSnoc(lines: seq<string>, i: nat)
    requires i < |lines| && AllHaveColon(lines[..i]) && ':' in lines[i]
    ensures AllHaveColon(lines[..i + 1])
    ensures DetailsOf(lines[..i + 1])
      == DetailsOf(lines[..i])[SplitAtColon(lines[i]).value.0 := SplitAtColon(lines[i]).value.1]
  {
    assert lines[..i + 1][..i] == lines[..i];
  }

  /** `get_packages_details`: the dictionary of the `pip show` output, or
      nothing (Python's `False`) when the command failed, some line has no
      colon, or there is no line at all. */
  method GetPackagesDetails(p: ProcessOutcome) returns (details: Option<map<string, string>>)
    ensures !Succeeded(p) ==> details.None?
    ensures Succeeded(p) ==>
      (details.None? <==> SplitLines(p.stdout) == [] || !AllHaveColon(SplitLines(p.stdout)))
    ensures details.Some? ==> details.value != map[]
    ensures details.Some? ==> AllHaveColon(SplitLines(p.stdout)) && details.value == DetailsOf(SplitLines(p.stdout))
  {
    var c := RunPipCommand(p);
    if !c.success {
      return None;
    }
    var lines := SplitLines(c.stdout);
    var d: map<string, string> := map[];
    var i := 0;
    while i < |lines|
      invariant 0 <= i <= |lines|
      invariant AllHaveColon(lines[..i])
      invariant d == DetailsOf(lines[..i])
      invariant i > 0 ==> d != map[]
    {
      var kv := SplitAtColon(lines[i]);
      if kv.None? {
        // the ValueError from unpacking is caught
        return None;
      }
      DetailsOfSnoc(lines, i);
      d := d[kv.value.0 := kv.value.1];
      assert kv.value.0 in d;
      i := i + 1;
    }
    assert lines[..i] == lines;
    if d == map[] {
      return None;
    }
    return Some(d);
  }

  /** Every key of the details comes from some line, and every line's key is
      present. */
  lemma {:induction false} DetailsKeys(lines: seq<string>, key: string)
    requires AllHaveColon(lines)
    ensures key in DetailsOf(lines) <==>
      exists k :: 0 <= k < |lines| && SplitAtColon(lines[k]).value.0 == key
  {
    if lines != [] {
      var init := lines[..|lines| - 1];
      assert AllHaveColon(init);
      DetailsKeys(init, key);
      assert forall k :: 0 <= k < |init| ==> init[k] == lines[k];
    }
  }

  /** A key maps to the value of the LAST line that has that key. */
  lemma {:induction false} DetailsLastWins(lines: seq<string>, i: nat)
    requires AllHaveColon(lines)
    requires i < |lines|
    requires forall j :: i < j < |lines| ==> SplitAtColon(lines[j]).value.0 != SplitAtColon(lines[i]).value.0
    ensures SplitAtColon(lines[i]).value.0 in DetailsOf(lines)
    ensures DetailsOf(lines)[SplitAtColon(lines[i]).value.0] == SplitAtColon(lines[i]).value.1
  {
    var init := lines[..|lines| - 1];
    assert AllHaveColon(init);
    if i < |lines| - 1 {
      assert init[i] == lines[i];
      DetailsLastWins(init, i);
    }
  }

  /** A line `key:value` whose key has no colon splits back into that key and
      that value, however many colons the value holds. */
  lemma SplitAtColonOf(key: string, value: string)
    requires ':' !in key
    ensures SplitAtColon(key + ":" + value) == Some((key, value))
  {
    var line := key + ":" + value;
    forall j | 0 <= j < |key| ensures line[j] != ':' {
      assert line[j] == key[j];
    }
    IndexOfAt(line, ':', |key|);
    assert line[..|key|] == key;
    assert line[|key| + 1..] == value;
  }

  /** The lines `key:value` for paired keys and values. */
  function Render(keys: seq<string>, values: seq<string>): (lines: seq<string>)
    requires |keys| == |values|
    ensures |lines| == |keys|
    ensures forall i :: 0 <= i < |keys| ==> lines[i] == keys[i] + ":" + values[i]
  {
    seq(|keys|, i requires 0 <= i < |keys| => keys[i] + ":" + values[i])
  }

  /** Parsing the rendered text of distinct colon-free keys and line-free
      values gives back exactly those keys, each with its value (leading
      blanks and later colons included). */
  lemma {:induction false} DetailsRoundTrip(keys: seq<string>, values: seq<string>, i: nat)
    requires |keys| == |values|
    requires forall j :: 0 <= j < |keys| ==> ':' !in keys[j] && '\n' !in keys[j] && '\n' !in values[j]
    requires forall j, k :: 0 <= j < k < |keys| ==> keys[j] != keys[k]
    requires i < |keys|
    ensures AllHaveColon(SplitLines(Unlines(Render(keys, values))))
    ensures keys[i] in DetailsOf(SplitLines(Unlines(Render(keys, values))))
    ensures DetailsOf(SplitLines(Unlines(Render(keys, values))))[keys[i]] == values[i]
  {
    var lines := Render(keys, values);
    forall j | 0 <= j < |lines| ensures '\n' !in lines[j] && ':' in lines[j] {
      assert lines[j][|keys[j]|] == ':';
      forall m | 0 <= m < |lines[j]| ensures lines[j][m] != '\n' {
        if m < |keys[j]| {
          assert lines[j][m] == keys[j][m];
        } else if m > |keys[j]| {
          assert lines[j][m] == values[j][m - |keys[j]| - 1];
        }
      }
    }
    SplitUnlines(lines);
    forall j | 0 <= j < |lines| ensures SplitAtColon(lines[j]).value.0 == keys[j] {
      SplitAtColonOf(keys[j], values[j]);
    }
    SplitAtColonOf(keys[i], values[i]);
    DetailsLastWins(lines, i);
  }

  // ---------------------------------------------------------------------
  // Version check: `INSTALLED:\s*(\d+\.\d+\.\d+)` and `LATEST:\s*(...)`

  /** The end of the run of characters satisfying `IsDigit` that starts at `i`. */
  function DigitsEnd(s: string, i: nat): (j: nat)
    requires i <= |s|
    ensures i <= j <= |s|
    ensures forall k :: i <= k < j ==> IsDigit(s[k])
    ensures j == |s| || !IsDigit(s[j])
    decreases |s| - i
  {
    if i < |s| && IsDigit(s[i]) then DigitsEnd(s, i + 1) else i
  }

  predicate AllDigits(s: string)
  {
    s != [] && forall k :: 0 <= k < |s| ==> IsDigit(s[k])
  }

  /** `v` has the shape `\d+\.\d+\.\d+`: three non-empty digit runs joined by dots. */
  predicate IsVersion(v: string)
  {
    exists a, b :: 0 < a && a + 1 < b && b + 1 < |v| && v[a] == '.' && v[b] == '.'
      && AllDigits(v[..a]) && AllDigits(v[a + 1..b]) && AllDigits(v[b + 1..])
  }

  /** The group the pattern `tag\s*(\d+\.\d+\.\d+)` captures when its match
      starts at position `i`, if it matches there. Each quantifier is greedy
      and no shorter choice could let the rest match, so the capture is the
      three maximal digit runs after the white space. */
  function VersionAt(s: string, tag: string, i: nat): (r: Option<string>)
    requires i <= |s|
    ensures r.Some? ==> tag <= s[i..]
  {
    if !(tag <= s[i..]) then None else VersionFrom(s, SpacesEnd(s, i + |tag|))
  }

  /** What `(\d+\.\d+\.\d+)` captures when it starts at position `a`. */
  function VersionFrom(s: string, a: nat): (r: Option<string>)
    requires a <= |s|
  {
    var b := DigitsEnd(s, a);
    if b == a || b == |s| || s[b] != '.' then None
    else
      var c := DigitsEnd(s, b + 1);
      if c == b + 1 || c == |s| || s[c] != '.' then None
      else
        var d := DigitsEnd(s, c + 1);
        if d == c + 1 then None else Some(s[a..d])
  }

  /** What the pattern captures is a version: three digit runs joined by dots. */
  lemma VersionAtShape(s: string, tag: string, i: nat)
    requires i <= |s|
    requires VersionAt(s, tag, i).Some?
    ensures IsVersion(VersionAt(s, tag, i).value)
  {
    var a := SpacesEnd(s, i + |tag|);
    var b := DigitsEnd(s, a);
    var c := DigitsEnd(s, b + 1);
    var d := DigitsEnd(s, c + 1);
    assert VersionAt(s, tag, i).value == s[a..d];
    DotsMakeVersion(s, a, b, c, d);
  }

  /** The converse of `VersionAtComplete`: a capture is always the three
      maximal digit runs, joined by dots, that follow the tag and its white
      space; a tag followed by anything else captures nothing. */
  lemma VersionAtSound(s: string, tag: string, i: nat)
    requires i <= |s| && VersionAt(s, tag, i).Some?
    ensures tag <= s[i..]
    ensures var a := SpacesEnd(s, i + |tag|);
      exists b, c, d ::
        && a < b && b + 1 < c && c + 1 < d <= |s|
        && s[b] == '.' && s[c] == '.'
        && (forall k :: a <= k < b ==> IsDigit(s[k]))
        && (forall k :: b < k < c ==> IsDigit(s[k]))
        && (forall k :: c < k < d ==> IsDigit(s[k]))
        && (d == |s| || !IsDigit(s[d]))
        && VersionAt(s, tag, i) == Some(s[a..d])
  {
    var a := SpacesEnd(s, i + |tag|);
    var b := DigitsEnd(s, a);
    var c := DigitsEnd(s, b + 1);
    var d := DigitsEnd(s, c + 1);
    assert VersionAt(s, tag, i) == Some(s[a..d]);
  }

  /** Three non-empty digit runs `s[a..b]`, `s[b+1..c]` and `s[c+1..d]` with
      dots at `b` and `c` form a version. */
  lemma DotsMakeVersion(s: string, a: nat, b: nat, c: nat, d: nat)
    requires a < b < c < d <= |s| && b + 1 < c && c + 1 < d
    requires s[b] == '.' && s[c] == '.'
    requires forall k :: a <= k < b ==> IsDigit(s[k])
    requires forall k :: b < k < c ==> IsDigit(s[k])
    requires forall k :: c < k < d ==> IsDigit(s[k])
    ensures IsVersion(s[a..d])
  {
    var v := s[a..d];
    var x, y, z := v[..b - a], v[b - a + 1..c - a], v[c - a + 1..];
    forall k | 0 <= k < |x| ensures IsDigit(x[k]) {
      assert x[k] == s[a + k];
    }
    forall k | 0 <= k < |y| ensures IsDigit(y[k]) {
      assert y[k] == s[b + 1 + k];
    }
    forall k | 0 <= k < |z| ensures IsDigit(z[k]) {
      assert z[k] == s[c + 1 + k];
    }
    assert v[b - a] == '.' && v[c - a] == '.';
    assert AllDigits(x) && AllDigits(y) && AllDigits(z);
  }

  /** A run of digits from `i` to `j` that nothing extends ends at `j`. */
  lemma {:induction false} DigitsEndAt(s: string, i: nat, j: nat)
    requires i <= j <= |s|
    requires forall k :: i <= k < j ==> IsDigit(s[k])
    requires j == |s| || !IsDigit(s[j])
    ensures DigitsEnd(s, i) == j
    decreases j - i
  {
    if i < j {
      DigitsEndAt(s, i + 1, j);
    }
  }

  /** The converse of `VersionAtShape`: wherever the tag is followed by white
      space and three maximal digit runs joined by dots, the pattern matches
      and captures exactly those runs. */
  lemma VersionAtComplete(s: string, tag: string, i: nat, a: nat, b: nat, c: nat, d: nat)
    requires i <= |s| && tag <= s[i..]
    requires a == SpacesEnd(s, i + |tag|)
    requires a < b && b + 1 < c && c + 1 < d <= |s|
    requires s[b] == '.' && s[c] == '.'
    requires forall k :: a <= k < b ==> IsDigit(s[k])
    requires forall k :: b < k < c ==> IsDigit(s[k])
    requires forall k :: c < k < d ==> IsDigit(s[k])
    requires d == |s| || !IsDigit(s[d])
    ensures VersionAt(s, tag, i) == Some(s[a..d])
  {
    DigitsEndAt(s, a, b);
    DigitsEndAt(s, b + 1, c);
    DigitsEndAt(s, c + 1, d);
    VersionFromRuns(s, a, b, c, d);
  }

  /** The capture when the three digit runs from `a` end at `b`, `c` and `d`,
      with dots at `b` and `c`. */
  lemma VersionFromRuns(s: string, a: nat, b: nat, c: nat, d: nat)
    requires a < b && b + 1 < c && c + 1 < d <= |s|
    requires s[b] == '.' && s[c] == '.'
    requires DigitsEnd(s, a) == b && DigitsEnd(s, b + 1) == c && DigitsEnd(s, c + 1) == d
    ensures VersionFrom(s, a) == Some(s[a..d])
  {
  }

  /** `re.search` reports the capture of the leftmost position where the
      pattern matches. */
  lemma SearchLeftmost(s: string, tag: string, k: nat)
    requires k <= |s| && VersionAt(s, tag, k).Some?
    requires forall m :: 0 <= m < k ==> VersionAt(s, tag, m).None?
    ensures Search(s, tag) == VersionAt(s, tag, k)
  {
    assert FirstMatch(s, tag, 0) == k;
  }

  /** Where `re.search` finds its match when it starts looking at `i`: the
      first position from which the pattern matches, or `|s| + 1` when it
      matches nowhere. */
  function FirstMatch(s: string, tag: string, i: nat): (k: nat)
    requires i <= |s|
    ensures i <= k <= |s| + 1
    ensures k <= |s| ==> VersionAt(s, tag, k).Some?
    ensures forall m :: i <= m < k && m <= |s| ==> VersionAt(s, tag, m).None?
    decreases |s| - i
  {
    if VersionAt(s, tag, i).Some? then i
    else if i == |s| then |s| + 1
    else
      var k := FirstMatch(s, tag, i + 1);
      assert forall m :: i + 1 <= m < k && m <= |s| ==> VersionAt(s, tag, m).None?;
      k
  }

  /** `re.search(tag + r"\s*(\d+\.\d+\.\d+)", s)` and its first group. */
  function Search(s: string, tag: string): (r: Option<string>)
    ensures r.None? <==> forall m :: 0 <= m <= |s| ==> VersionAt(s, tag, m).None?
  {
    var k := FirstMatch(s, tag, 0);
    if k <= |s| then VersionAt(s, tag, k) else None
  }

  const ParseFailure := "Failed to parse version information"

  /** `check_package_version`: nothing when the `pip index versions` command
      failed (the function falls off its end); a parse failure when either
      version is missing; otherwise "update available" exactly when the two
      versions differ as strings. */
  function CheckPackageVersion(p: ProcessOutcome): (r: Option<Reply>)
    ensures r.None? <==> !Succeeded(p)
    ensures r.Some? ==> (r.value.ok ==> r.value.message == "")
    ensures r.Some? && r.value.message != "" ==> r.value == Reply(false, ParseFailure)
    ensures r.Some? ==> (r.value == Reply(false, ParseFailure) <==>
      Search(p.stdout, "INSTALLED:").None? || Search(p.stdout, "LATEST:").None?)
    ensures r.Some? && r.value.ok ==>
      Search(p.stdout, "INSTALLED:").Some? && Search(p.stdout, "LATEST:").Some?
      && Search(p.stdout, "INSTALLED:").value != Search(p.stdout, "LATEST:").value
  {
    var c := RunPipCommand(p);
    if !c.success then None
    else
      var installed := Search(c.stdout, "INSTALLED:");
      var latest := Search(c.stdout, "LATEST:");
      if installed.None? || latest.None? then Some(Reply(false, ParseFailure))
      else if installed.value != latest.value then Some(Reply(true, ""))
      else Some(Reply(false, ""))
  }

  /** With both versions found, the reply says "update available" exactly
      when the strings differ and "up to date" exactly when they are equal:
      there is no ordering, so an installed version newer than the latest
      one also counts as an update. */
  lemma VersionComparison(p: ProcessOutcome)
    requires Succeeded(p)
    ensures var installed, latest := Search(p.stdout, "INSTALLED:"), Search(p.stdout, "LATEST:");
      installed.Some? && latest.Some? ==>
        && CheckPackageVersion(p) == Some(Reply(installed.value != latest.value, ""))
        && IsVersion(installed.value) && IsVersion(latest.value)
  {
    var installed, latest := Search(p.stdout, "INSTALLED:"), Search(p.stdout, "LATEST:");
    if installed.Some? && latest.Some? {
      VersionAtShape(p.stdout, "INSTALLED:", FirstMatch(p.stdout, "INSTALLED:", 0));
      VersionAtShape(p.stdout, "LATEST:", FirstMatch(p.stdout, "LATEST:", 0));
    }
  }

  /** Output lacking either version is a parse failure, not "already up to
      date"; output with no `INSTALLED:` text at all lacks the installed
      version. */
  lemma MissingVersion(p: ProcessOutcome)
    requires Succeeded(p)
    ensures Search(p.stdout, "INSTALLED:").None? || Search(p.stdout, "LATEST:").None? ==>
      CheckPackageVersion(p) == Some(Reply(false, ParseFailure))
    ensures (forall k :: 0 <= k <= |p.stdout| ==> !("INSTALLED:" <= p.stdout[k..])) ==>
      Search(p.stdout, "INSTALLED:").None?
  {
  }
}
