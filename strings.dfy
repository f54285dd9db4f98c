/** Text helpers shared by the installer gateway and the package window:
    an Option type, ASCII character classes, searching, lower-casing,
    stripping and line splitting on Dafny strings. */
module Strings {

  datatype Option<+T> = None | Some(value: T)

  /** The characters a regular expression's `\d` matches (ASCII only). */
  predicate IsDigit(c: char) { '0' <= c <= '9' }

  /** The characters below 128 that `\s` and `str.strip()` treat as white
      space: space, tab, line feed, vertical tab, form feed, carriage return
      and the four separators U+001C to U+001F. */
  predicate IsSpace(c: char) { c == ' ' || '\t' <= c <= '\r' || '\U{1C}' <= c <= '\U{1F}' }

  /** The position of the first occurrence of `c` in `s`, or `|s|` when there is none. */
  function IndexOf(s: string, c: char): (i: nat)
    ensures i <= |s|
    ensures i < |s| ==> s[i] == c
    ensures forall j :: 0 <= j < i ==> s[j] != c
    ensures i == |s| <==> c !in s
  {
    if s == [] then 0
    else if s[0] == c then 0
    else 1 + IndexOf(s[1..], c)
  }

  /** The first occurrence is pinned down by its position. */
  lemma IndexOfAt(s: string, c: char, i: nat)
    requires i < |s| && s[i] == c
    requires forall j :: 0 <= j < i ==> s[j] != c
    ensures IndexOf(s, c) == i
  {
  }

  /** `needle in hay` on strings: `needle` occurs as a contiguous piece of `hay`. */
  predicate IsSubstring(needle: string, hay: string)
    decreases |hay|
  {
    needle <= hay || (hay != [] && IsSubstring(needle, hay[1..]))
  }

  /** `needle` occurs in `hay` starting at position `i`. */
  predicate OccursAt(needle: string, hay: string, i: int)
  {
    0 <= i <= |hay| - |needle| && hay[i..i + |needle|] == needle
  }

  /** IsSubstring agrees with the positional definition of "occurs in". */
  lemma {:induction false} SubstringAt(needle: string, hay: string)
    ensures IsSubstring(needle, hay) <==> exists i :: OccursAt(needle, hay, i)
    decreases |hay|
  {
    if needle <= hay {
      assert OccursAt(needle, hay, 0);
    } else if hay == [] {
    } else {
      SubstringAt(needle, hay[1..]);
      if IsSubstring(needle, hay[1..]) {
        var i :| OccursAt(needle, hay[1..], i);
        assert hay[i + 1..i + 1 + |needle|] == hay[1..][i..i + |needle|];
        assert OccursAt(needle, hay, i + 1);
      }
      if exists i :: OccursAt(needle, hay, i) {
        var i :| OccursAt(needle, hay, i);
        assert i != 0;
        assert hay[1..][i - 1..i - 1 + |needle|] == hay[i..i + |needle|];
        assert OccursAt(needle, hay[1..], i - 1);
      }
    }
  }

  /** The empty string occurs in every string. */
  lemma EmptyIsSubstring(hay: string)
    ensures IsSubstring("", hay)
  {
  }

  function LowerChar(c: char): char
  {
    if 'A' <= c <= 'Z' then (c as int - 'A' as int + 'a' as int) as char else c
  }

  /** `str.lower()`, restricted to ASCII letters. */
  function Lower(s: string): (r: string)
    ensures |r| == |s|
    ensures forall i :: 0 <= i < |s| ==> r[i] == LowerChar(s[i])
    ensures forall i :: 0 <= i < |r| ==> !('A' <= r[i] <= 'Z')
  {
    seq(|s|, i requires 0 <= i < |s| => LowerChar(s[i]))
  }

  /** The end of the run of white space that starts at `i`. */
  function SpacesEnd(s: string, i: nat): (j: nat)
    requires i <= |s|
    ensures i <= j <= |s|
    ensures forall k :: i <= k < j ==> IsSpace(s[k])
    ensures j == |s| || !IsSpace(s[j])
    decreases |s| - i
  {
    if i < |s| && IsSpace(s[i]) then SpacesEnd(s, i + 1) else i
  }

  /** The start of the run of white space that ends at `j`. */
  function SpacesStart(s: string, j: nat): (i: nat)
    requires j <= |s|
    ensures i <= j
    ensures forall k :: i <= k < j ==> IsSpace(s[k])
    ensures i == 0 || !IsSpace(s[i - 1])
  {
    if j > 0 && IsSpace(s[j - 1]) then SpacesStart(s, j - 1) else j
  }

  /** `str.strip()`: drops white space at both ends. What is left starts
      at some offset `k` of `s`; everything before `k` and everything after
      the part kept is white space, and neither end of the result is. */
  function Strip(s: string): (r: string)
    ensures exists k ::
      && 0 <= k <= |s| && r <= s[k..]
      && (forall i :: 0 <= i < k ==> IsSpace(s[i]))
      && (forall i :: k + |r| <= i < |s| ==> IsSpace(s[i]))
    ensures r == [] || (!IsSpace(r[0]) && !IsSpace(r[|r| - 1]))
  {
    var a := SpacesEnd(s, 0);
    if a == |s| then
      assert [] <= s[a..];
      []
    else
      var b := SpacesStart(s, |s|);
      assert s[a..b] <= s[a..];
      s[a..b]
  }

  /** Stripping only drops characters: every character kept is one of `s`. */
  lemma StripChars(s: string)
    ensures forall i :: 0 <= i < |Strip(s)| ==> Strip(s)[i] in s
  {
    var r := Strip(s);
    var k :| && 0 <= k <= |s| && r <= s[k..]
             && (forall i :: 0 <= i < k ==> IsSpace(s[i]))
             && (forall i :: k + |r| <= i < |s| ==> IsSpace(s[i]));
    PartChars(s, r, k);
  }

  /** Every character of a prefix of `s[k..]` is a character of `s`. */
  lemma PartChars(s: string, r: string, k: nat)
    requires k <= |s| && r <= s[k..]
    ensures forall i :: 0 <= i < |r| ==> r[i] in s
  {
    forall i | 0 <= i < |r| ensures r[i] in s {
      assert r[i] == s[k..][i] == s[k + i];
    }
  }

  /** `Strip`'s contract has one solution: a part of `s` with white space
      only around it, and none at either of its ends, is what `Strip` keeps. */
  lemma StripUnique(s: string, r: string, k: nat)
    requires k <= |s| && r <= s[k..]
    requires forall i :: 0 <= i < k ==> IsSpace(s[i])
    requires forall i :: k + |r| <= i < |s| ==> IsSpace(s[i])
    requires r == [] || (!IsSpace(r[0]) && !IsSpace(r[|r| - 1]))
    ensures Strip(s) == r
  {
    var a := SpacesEnd(s, 0);
    if r == [] {
      assert forall i :: 0 <= i < |s| ==> IsSpace(s[i]);
    } else {
      var e := k + |r|;
      assert s[k] == r[0] && s[e - 1] == r[|r| - 1];
      assert a == k;
      var b := SpacesStart(s, |s|);
      assert b == e;
      assert s[a..b] == r;
    }
  }

  /** A string made only of white space strips to the empty string. */
  lemma StripBlank(s: string)
    requires forall i :: 0 <= i < |s| ==> IsSpace(s[i])
    ensures Strip(s) == ""
  {
  }

  /** `str.splitlines()` with `\n` as the only line break: each line without
      its break, no empty line after a final break, no line at all for "". */
  function SplitLines(s: string): (lines: seq<string>)
    ensures forall k :: 0 <= k < |lines| ==> '\n' !in lines[k]
    ensures s != [] ==> lines != []
    ensures s != [] && '\n' !in s ==> lines == [s]
    decreases |s|
  {
    if s == [] then []
    else
      var i := IndexOf(s, '\n');
      if i == |s| then [s] else [s[..i]] + SplitLines(s[i + 1..])
  }

  /** Every line followed by a line break, the text that SplitLines reads. */
  function Unlines(lines: seq<string>): string
  {
    if lines == [] then "" else lines[0] + "\n" + Unlines(lines[1..])
  }

  /** A break-free line followed by a break splits off as the first line. */
  lemma SplitLinesCons(line: string, rest: string)
    requires '\n' !in line
    ensures SplitLines(line + "\n" + rest) == [line] + SplitLines(rest)
  {
    var s := line + "\n" + rest;
    forall j | 0 <= j < |line| ensures s[j] != '\n' {
      assert s[j] == line[j];
    }
    IndexOfAt(s, '\n', |line|);
    assert s[..|line|] == line;
    assert s[|line| + 1..] == rest;
  }

  /** Splitting the text of lines that hold no break gives those lines back. */
  lemma {:induction false} SplitUnlines(lines: seq<string>)
    requires forall k :: 0 <= k < |lines| ==> '\n' !in lines[k]
    ensures SplitLines(Unlines(lines)) == lines
  {
    if lines != [] {
      SplitLinesCons(lines[0], Unlines(lines[1..]));
      SplitUnlines(lines[1..]);
    }
  }
}
