/** The JavaScript string built-ins the engine relies on, over strings as sequences of code units. */
module JsStrings {

  /** `pat` occurs in `s` starting at index `i`. */
  predicate OccursAt(s: string, pat: string, i: int) {
    0 <= i && i + |pat| <= |s| && s[i..i + |pat|] == pat
  }

  lemma OccursAtChar(s: string, c: char, i: int)
    ensures OccursAt(s, [c], i) <==> 0 <= i < |s| && s[i] == c
  {
    if 0 <= i < |s| {
      assert s[i..i + 1] == [s[i]];
    }
  }

  /** `s.indexOf(pat, from)`: the first occurrence at or after `from`, or -1. */
  function IndexOf(s: string, pat: string, from: nat): (r: int)
    ensures r == -1 || (from <= r && OccursAt(s, pat, r))
    decreases |s| + 1 - from
  {
    if from + |pat| > |s| then -1
    else if s[from..from + |pat|] == pat then from
    else IndexOf(s, pat, from + 1)
  }

  /** IndexOf finds the first occurrence: there is none from `from` up to its result, and
      none at all from `from` on when it returns -1. */
  lemma {:induction false} IndexOfFirst(s: string, pat: string, from: nat)
    ensures var r := IndexOf(s, pat, from);
      forall j :: from <= j && (r == -1 || j < r) ==> !OccursAt(s, pat, j)
    decreases |s| + 1 - from
  {
    if from + |pat| <= |s| && s[from..from + |pat|] != pat {
      IndexOfFirst(s, pat, from + 1);
    }
  }

  /** The last occurrence of `pat` starting at or before `i`, or -1 (`s.lastIndexOf(pat, i)`). */
  function LastIndexOf(s: string, pat: string, i: int): (r: int)
    ensures r == -1 || (0 <= r <= i && OccursAt(s, pat, r))
    ensures forall j :: r < j <= i ==> !OccursAt(s, pat, j)
    decreases i + 1
  {
    if i < 0 then -1
    else if OccursAt(s, pat, i) then i
    else LastIndexOf(s, pat, i - 1)
  }

  /** `s.split(sep)` for a one-character separator: the fields between separators, `[""]` for `""`. */
  function Split(s: string, sep: char): (r: seq<string>)
    ensures |r| >= 1
    ensures forall i :: 0 <= i < |r| ==> sep !in r[i]
    decreases |s|
  {
    if |s| == 0 then [""]
    else
      var rest := Split(s[1..], sep);
      if s[0] == sep then [""] + rest else [[s[0]] + rest[0]] + rest[1..]
  }

  /** `parts.join(sep)`. */
  function Join(parts: seq<string>, sep: char): string
    decreases |parts|
  {
    if |parts| == 0 then ""
    else if |parts| == 1 then parts[0]
    else parts[0] + [sep] + Join(parts[1..], sep)
  }

  /** Splitting a string and joining the fields again gives the string back. */
  lemma {:induction false} JoinSplit(s: string, sep: char)
    ensures Join(Split(s, sep), sep) == s
    decreases |s|
  {
    if |s| > 0 {
      var rest := Split(s[1..], sep);
      JoinSplit(s[1..], sep);
      if s[0] == sep {
        assert Split(s, sep) == [""] + rest;
        assert ([""] + rest)[1..] == rest;
        assert s == [sep] + s[1..];
      } else {
        var r := Split(s, sep);
        assert r == [[s[0]] + rest[0]] + rest[1..];
        assert r[1..] == rest[1..];
        if |rest| == 1 {
          assert s == [s[0]] + rest[0];
        } else {
          assert Join(rest, sep) == rest[0] + [sep] + Join(rest[1..], sep);
          assert s == [s[0]] + s[1..];
        }
      }
    }
  }

  /** Splitting `a + t` where `a` holds no separator glues `a` to the first field of `t`. */
  lemma {:induction false} SplitPrefix(a: string, t: string, sep: char)
    requires sep !in a
    ensures Split(a + t, sep) == [a + Split(t, sep)[0]] + Split(t, sep)[1..]
    decreases |a|
  {
    if |a| > 0 {
      assert (a + t)[1..] == a[1..] + t;
      assert (a + t)[0] == a[0];
      SplitPrefix(a[1..], t, sep);
      assert [a[0]] + (a[1..] + Split(t, sep)[0]) == a + Split(t, sep)[0];
    } else {
      assert a + t == t;
      var r := Split(t, sep);
      assert r == [r[0]] + r[1..];
      assert a + r[0] == r[0];
    }
  }

  /** Joining fields that hold no separator and splitting again gives the fields back. */
  lemma {:induction false} SplitJoin(parts: seq<string>, sep: char)
    requires |parts| >= 1
    requires forall i :: 0 <= i < |parts| ==> sep !in parts[i]
    ensures Split(Join(parts, sep), sep) == parts
    decreases |parts|
  {
    if |parts| == 1 {
      SplitPrefix(parts[0], "", sep);
      assert parts[0] + "" == parts[0];
    } else {
      var tail := Join(parts[1..], sep);
      SplitJoin(parts[1..], sep);
      assert Join(parts, sep) == parts[0] + ([sep] + tail);
      SplitPrefix(parts[0], [sep] + tail, sep);
      assert ([sep] + tail)[1..] == tail;
      assert ([sep] + tail)[0] == sep;
      var st := Split([sep] + tail, sep);
      assert st == [""] + Split(tail, sep);
      assert st[0] == "" && st[1..] == parts[1..];
      assert parts[0] + st[0] == parts[0];
      assert parts == [parts[0]] + parts[1..];
    }
  }

  /** `s.replace(/ /g, "")`: every space removed; tabs and all other characters kept, in order. */
  function RemoveSpaces(s: string): (r: string)
    ensures ' ' !in r
    ensures forall c :: c != ' ' ==> multiset(r)[c] == multiset(s)[c]
    decreases |s|
  {
    if |s| == 0 then ""
    else
      assert s == [s[0]] + s[1..];
      (if s[0] == ' ' then "" else [s[0]]) + RemoveSpaces(s[1..])
  }

  /** Removing spaces works piecewise, so the kept characters stay in their order. */
  lemma {:induction false} RemoveSpacesAppend(a: string, b: string)
    ensures RemoveSpaces(a + b) == RemoveSpaces(a) + RemoveSpaces(b)
    decreases |a|
  {
    if |a| == 0 {
      assert a + b == b;
    } else {
      var h := if a[0] == ' ' then "" else [a[0]];
      assert (a + b)[0] == a[0];
      assert (a + b)[1..] == a[1..] + b;
      assert RemoveSpaces(a + b) == h + RemoveSpaces(a[1..] + b);
      RemoveSpacesAppend(a[1..], b);
      assert RemoveSpaces(a) == h + RemoveSpaces(a[1..]);
    }
  }

  /** A string without spaces is left as it is. */
  lemma {:induction false} RemoveSpacesNoSpace(s: string)
    requires ' ' !in s
    ensures RemoveSpaces(s) == s
    decreases |s|
  {
    if |s| > 0 {
      assert ' ' !in s[1..];
      RemoveSpacesNoSpace(s[1..]);
      assert s == [s[0]] + s[1..];
    }
  }

  /** `s.indexOf(c, from)` for one character, stated over characters. */
  lemma IndexOfChar(s: string, c: char, from: nat)
    ensures var r := IndexOf(s, [c], from);
      && (r == -1 || (from <= r < |s| && s[r] == c))
      && forall j :: from <= j < |s| && (r == -1 || j < r) ==> s[j] != c
  {
    var r := IndexOf(s, [c], from);
    IndexOfFirst(s, [c], from);
    if r != -1 {
      OccursAtChar(s, c, r);
    }
    forall j | from <= j < |s| && (r == -1 || j < r)
      ensures s[j] != c
    {
      OccursAtChar(s, c, j);
    }
  }

  /** `s.lastIndexOf(c, i)` for one character, stated over characters. */
  lemma LastIndexOfChar(s: string, c: char, i: int)
    requires i < |s|
    ensures var r := LastIndexOf(s, [c], i);
      && (r == -1 || (0 <= r <= i && s[r] == c))
      && forall j :: 0 <= j <= i && r < j ==> s[j] != c
  {
    var r := LastIndexOf(s, [c], i);
    if r != -1 {
      OccursAtChar(s, c, r);
    }
    forall j | 0 <= j <= i && r < j
      ensures s[j] != c
    {
      OccursAtChar(s, c, j);
    }
  }

  /** An occurrence inside a slice is an occurrence in the whole string, shifted. */
  lemma OccursInSlice(s: string, pat: string, lo: nat, hi: nat, j: int)
    requires lo <= hi <= |s|
    ensures OccursAt(s[lo..hi], pat, j) <==> 0 <= j && j + |pat| <= hi - lo && OccursAt(s, pat, lo + j)
  {
    if 0 <= j && j + |pat| <= hi - lo {
      var a, b := s[lo..hi][j..j + |pat|], s[lo + j..lo + j + |pat|];
      assert |a| == |b|;
      forall n | 0 <= n < |a| ensures a[n] == b[n] {
        assert a[n] == s[lo..hi][j + n] == s[lo + j + n];
      }
      assert a == b;
    }
  }
}
