/** The sequential logic of the package list window: filtering the list by
    the search text, filling the table with numbered rows, reading the
    selected row's package name and mapping it to its folder name. The
    window, its widgets and the file explorer are not modelled. */
module PackagesWindow {
  import opened Strings

  /** A package as the listings give it: a tuple of strings whose first
      element is the name (`(name, version)` or `(name, version, latest)`). */
  type Package = p: seq<string> | |p| > 0 witness [""]

  /** One value in a table row: the row number or a package field. */
  datatype Cell = Num(n: int) | Text(s: string)

  /** The search text as the filter uses it: lower-cased, then stripped. */
  function Query(search: string): (q: string)
    ensures |q| <= |search|
    ensures forall i :: 0 <= i < |q| ==> !('A' <= q[i] <= 'Z')
    ensures q == [] || (!IsSpace(q[0]) && !IsSpace(q[|q| - 1]))
  {
    StripChars(Lower(search));
    Strip(Lower(search))
  }

  /** The packages whose NAME contains `query`, in their original order. The
      name itself is not lower-cased. */
  function Filter(query: string, packages: seq<Package>): (kept: seq<Package>)
    ensures |kept| <= |packages|
  {
    if packages == [] then []
    else (if IsSubstring(query, packages[0][0]) then [packages[0]] else []) + Filter(query, packages[1..])
  }

  /** A package is kept exactly when it is in the list and the query occurs
      in its name. */
  lemma {:induction false} FilterKeeps(query: string, packages: seq<Package>, p: Package)
    ensures p in Filter(query, packages) <==> p in packages && IsSubstring(query, p[0])
  {
    if packages != [] {
      FilterKeeps(query, packages[1..], p);
      assert packages == [packages[0]] + packages[1..];
    }
  }

  /** The filter keeps every copy of a matching package and no copy of any
      other: duplicates in the list are kept as often as they occur. */
  lemma {:induction false} FilterCounts(query: string, packages: seq<Package>, p: Package)
    ensures multiset(Filter(query, packages))[p] == if IsSubstring(query, p[0]) then multiset(packages)[p] else 0
  {
    if packages != [] {
      var head := if IsSubstring(query, packages[0][0]) then [packages[0]] else [];
      FilterCounts(query, packages[1..], p);
      assert packages == [packages[0]] + packages[1..];
      assert multiset(packages) == multiset([packages[0]]) + multiset(packages[1..]);
      assert multiset(Filter(query, packages)) == multiset(head) + multiset(Filter(query, packages[1..]));
    }
  }

  /** `sub` is `s` with some elements left out, the rest in order. */
  ghost predicate IsSubsequence<T>(sub: seq<T>, s: seq<T>)
    decreases |s|
  {
    if sub == [] then true
    else if s == [] then false
    else if sub[0] == s[0] then IsSubsequence(sub[1..], s[1..])
    else IsSubsequence(sub, s[1..])
  }

  /** The filter keeps the packages in their order. */
  lemma {:induction false} FilterIsSubsequence(query: string, packages: seq<Package>)
    ensures IsSubsequence(Filter(query, packages), packages)
  {
    if packages != [] {
      var rest := Filter(query, packages[1..]);
      FilterIsSubsequence(query, packages[1..]);
      if IsSubstring(query, packages[0][0]) {
        assert Filter(query, packages) == [packages[0]] + rest;
        assert ([packages[0]] + rest)[1..] == rest;
      } else {
        assert Filter(query, packages) == rest;
        SubsequenceOfTail(rest, packages);
      }
    }
  }

  /** A subsequence of the tail of `s` is a subsequence of `s`. */
  lemma {:induction false} SubsequenceOfTail<T>(sub: seq<T>, s: seq<T>)
    requires s != [] && IsSubsequence(sub, s[1..])
    ensures IsSubsequence(sub, s)
    decreases |s|, 1
  {
    if sub != [] && sub[0] == s[0] {
      SubsequenceDropHead(sub, s[1..]);
    }
  }

  /** A subsequence without its first element is still a subsequence. */
  lemma {:induction false} SubsequenceDropHead<T>(sub: seq<T>, s: seq<T>)
    requires sub != [] && IsSubsequence(sub, s)
    ensures IsSubsequence(sub[1..], s)
    decreases |s|, 2
  {
    if sub[1..] != [] {
      if sub[0] == s[0] {
        SubsequenceOfTail(sub[1..], s);
      } else {
        SubsequenceDropHead(sub, s[1..]);
        SubsequenceOfTail(sub[1..], s);
      }
    }
  }

  /** An empty query, which is what a blank search text gives, keeps every
      package. */
  lemma {:induction false} FilterEmptyQuery(packages: seq<Package>)
    ensures Filter("", packages) == packages
  {
    if packages != [] {
      EmptyIsSubstring(packages[0][0]);
      FilterEmptyQuery(packages[1..]);
    }
  }

  /** A search text of white space only keeps every package. */
  lemma BlankSearchKeepsAll(search: string, packages: seq<Package>)
    requires forall i :: 0 <= i < |search| ==> IsSpace(search[i])
    ensures Filter(Query(search), packages) == packages
  {
    var lowered := Lower(search);
    forall i | 0 <= i < |lowered| ensures IsSpace(lowered[i]) {
      assert lowered[i] == LowerChar(search[i]);
    }
    StripBlank(lowered);
    FilterEmptyQuery(packages);
  }

  /** The values of one table row: its number, then the package's fields. */
  function RowValues(number: int, p: Package): (values: seq<Cell>)
    ensures |values| == |p| + 1 && values[0] == Num(number)
    ensures forall j :: 1 <= j < |values| ==> values[j] == Text(p[j - 1])
  {
    [Num(number)] + seq(|p|, j requires 0 <= j < |p| => Text(p[j]))
  }

  /** The folder a package lives in: its name with every `-` turned into `_`. */
  function FolderName(name: string): (folder: string)
    ensures |folder| == |name|
    ensures forall i :: 0 <= i < |name| ==> folder[i] == (if name[i] == '-' then '_' else name[i])
    ensures '-' !in folder
    ensures '-' !in name ==> folder == name
  {
    if '-' in name then ReplaceDashes(name) else name
  }

  function ReplaceDashes(s: string): (r: string)
    ensures |r| == |s|
    ensures forall i :: 0 <= i < |s| ==> r[i] == (if s[i] == '-' then '_' else s[i])
  {
    if s == [] then [] else [if s[0] == '-' then '_' else s[0]] + ReplaceDashes(s[1..])
  }

  /** The list window: its packages, the filtered list and the table. Table
      items are identified by their position; `selection` holds the selected
      positions. */
  class PackageWindow {
    var packages: seq<Package>
    var filteredPackages: seq<Package>
    var rows: seq<seq<Cell>>
    var selection: seq<nat>
    const packageFolder: string

    /** Every row is a number followed by at least one text field, and the
        selection names existing rows. */
    ghost predicate Valid()
      reads this`rows, this`selection
    {
      && (forall i :: 0 <= i < |rows| ==>
            |rows[i]| >= 2 && rows[i][0].Num? && forall j :: 1 <= j < |rows[i]| ==> rows[i][j].Text?)
      && (forall k :: 0 <= k < |selection| ==> selection[k] < |rows|)
    }

    /** The name column of the first selected row. */
    ghost function SelectedName(): string
      reads this`rows, this`selection
      requires Valid() && selection != []
    {
      rows[selection[0]][1].s
    }

    /** The table lists `pkgs`, numbered from 1 in order. */
    ghost predicate Shows(pkgs: seq<Package>)
      reads this`rows
    {
      |rows| == |pkgs| && forall i :: 0 <= i < |pkgs| ==> rows[i] == RowValues(i + 1, pkgs[i])
    }

    /** `__init__` with the list it is given; `packageFolder` is what the
        site-packages lookup gave ("" when it failed). */
    constructor (packages: seq<Package>, packageFolder: string)
      ensures Valid() && this.packages == packages && this.packageFolder == packageFolder
      ensures Shows(packages) && selection == []
    {
      this.packages := packages;
      this.filteredPackages := [];
      this.packageFolder := packageFolder;
      rows := [];
      selection := [];
      new;
      PopulateTreeview(packages);
    }

    /** `populate_treeview`: deletes every row, then inserts `(i, *pkg)` for
        each package, numbering from 1. */
    method PopulateTreeview(pkgs: seq<Package>)
      requires Valid()
      modifies this`rows, this`selection
      ensures Valid() && Shows(pkgs) && selection == []
    {
      var children := |rows|;
      var k := 0;
      while k < children
        invariant 0 <= k <= children
        invariant |rows| == children - k
        invariant forall j :: 0 <= j < |selection| ==> selection[j] < |rows|
      {
        rows := rows[1..];
        // a deleted item leaves the selection; the others move up one place
        selection := ShiftSelection(selection);
        k := k + 1;
      }
      NoRowsNoSelection(selection, |rows|);
      var i := 1;
      for n := 0 to |pkgs|
        invariant i == n + 1
        invariant |rows| == n
        invariant forall m :: 0 <= m < n ==> rows[m] == RowValues(m + 1, pkgs[m])
        invariant selection == []
      {
        rows := rows + [RowValues(i, pkgs[n])];
        i := i + 1;
      }
    }

    /** `filter_packages`: keeps the packages whose name contains the
        lower-cased, stripped search text and shows them. */
    method FilterPackages(search: string)
      requires Valid()
      modifies this`filteredPackages, this`rows, this`selection
      ensures filteredPackages == Filter(Query(search), packages)
      ensures Valid() && Shows(filteredPackages) && selection == []
    {
      var query := Query(search);
      var kept := Filter(query, packages);
      filteredPackages := kept;
      PopulateTreeview(kept);
    }

    /** `selection_set(row)` as the context menu does it. */
    method Select(row: nat)
      requires Valid() && row < |rows|
      modifies this`selection
      ensures Valid() && selection == [row]
    {
      selection := [row];
    }

    /** `get_selected_package`: column 1 of the first selected row, which is
        the package name since column 0 holds the row number. Nothing when the
        selection is empty (indexing it raises IndexError). */
    method GetSelectedPackage() returns (name: Option<string>)
      requires Valid()
      ensures name.None? <==> selection == []
      ensures name.Some? ==> rows[selection[0]][1] == Text(name.value)
    {
      if selection == [] {
        return None;
      }
      var row := rows[selection[0]];
      return Some(row[1].s);
    }

    /** `open_package_location` up to the file-system calls: the folder name
        to look for under `packageFolder`, or nothing when no name is selected,
        the name is empty or the package folder is unknown. */
    method OpenPackageLocation() returns (folder: Option<string>)
      requires Valid()
      ensures folder.Some? <==> selection != [] && SelectedName() != "" && packageFolder != ""
      ensures folder.Some? ==> folder.value == FolderName(SelectedName())
    {
      var name := GetSelectedPackage();
      if name.None? || name.value == "" || packageFolder == "" {
        return None;
      }
      return Some(FolderName(name.value));
    }
  }

  /** The selection after the first row is deleted. */
  function ShiftSelection(selection: seq<nat>): (r: seq<nat>)
    ensures |r| <= |selection|
    ensures forall i :: 0 <= i < |r| ==> exists j :: 0 <= j < |selection| && selection[j] == r[i] + 1
  {
    if selection == [] then []
    else (if selection[0] == 0 then [] else [selection[0] - 1]) + ShiftSelection(selection[1..])
  }

  /** A selection of positions below `n` is empty when there are no rows. */
  lemma NoRowsNoSelection(selection: seq<nat>, n: nat)
    requires forall j :: 0 <= j < |selection| ==> selection[j] < n
    ensures n == 0 ==> selection == []
  {
    if selection != [] {
      assert selection[0] < n;
    }
  }

  /** After the table shows `pkgs` and row `k` is selected, the selected
      package is the name of `pkgs[k]`. */
  lemma SelectedIsName(pkgs: seq<Package>, k: nat)
    requires k < |pkgs|
    ensures RowValues(k + 1, pkgs[k])[1] == Text(pkgs[k][0])
    ensures RowValues(k + 1, pkgs[k])[0] == Num(k + 1)
  {
  }
}
