/** The few `java.lang.String` operations the services rely on. */
module Strings {

  /** `pat` occurs in `s` starting at position `i`. */
  predicate OccursAt(s: string, pat: string, i: nat) {
    i + |pat| <= |s| && s[i..i + |pat|] == pat
  }

  lemma OccursShift(s: string, pat: string)
    requires s != []
    ensures forall i: nat :: OccursAt(s, pat, i + 1) == OccursAt(s[1..], pat, i)
  {
    forall i: nat ensures OccursAt(s, pat, i + 1) == OccursAt(s[1..], pat, i) {
      if i + 1 + |pat| <= |s| {
        assert s[1..][i..i + |pat|] == s[i + 1..i + 1 + |pat|];
      }
    }
  }

  /** `s.contains(pat)`: some position of `s` starts an occurrence of `pat`. */
  function Contains(s: string, pat: string): (r: bool)
    ensures r <==> exists i: nat :: OccursAt(s, pat, i)
    decreases |s|
  {
    if OccursAt(s, pat, 0) then true
    else if s == [] then
      assert forall i: nat :: !OccursAt(s, pat, i);
      false
    else
      var r := Contains(s[1..], pat);
      OccursShift(s, pat);
      assert forall i: nat :: OccursAt(s, pat, i) ==> i > 0 && OccursAt(s[1..], pat, i - 1);
      r
  }

  /** A string never contains a pattern whose first character it lacks at every start. */
  lemma NotContainsByFirst(s: string, pat: string)
    requires pat != []
    requires forall i :: 0 <= i < |s| ==> s[i] != pat[0]
    ensures !Contains(s, pat)
  {
    forall i: nat ensures !OccursAt(s, pat, i) {
      assert i + |pat| <= |s| ==> s[i..i + |pat|][0] == s[i];
    }
  }

  /** `String.join(sep, parts)` */
  function Join(sep: string, parts: seq<string>): string
    decreases |parts|
  {
    if parts == [] then ""
    else if |parts| == 1 then parts[0]
    else parts[0] + sep + Join(sep, parts[1..])
  }

  /**
   * The maximal delimiter-free runs of `s`, empty runs included: the pieces
   * a split on `d` produces before Java discards anything.
   */
  function Pieces(s: string, d: char): (r: seq<string>)
    ensures |r| >= 1
    ensures forall k :: 0 <= k < |r| ==> d !in r[k]
    ensures Join([d], r) == s
    decreases |s|
  {
    if s == [] then [""]
    else if s[0] == d then
      var rest := Pieces(s[1..], d);
      assert s == [d] + s[1..];
      [""] + rest
    else
      var rest := Pieces(s[1..], d);
      var r := [[s[0]] + rest[0]] + rest[1..];
      assert r[1..] == rest[1..];
      assert |rest| > 1 ==> Join([d], rest) == rest[0] + [d] + Join([d], rest[1..]);
      assert s == [s[0]] + s[1..];
      r
  }

  /** Drops the empty strings at the end of `p`. */
  function DropTrailingEmpty(p: seq<string>): (r: seq<string>)
    ensures |r| <= |p| && r == p[..|r|]
    ensures r == [] || r[|r| - 1] != ""
    ensures forall k :: |r| <= k < |p| ==> p[k] == ""
    decreases |p|
  {
    if p == [] then []
    else if p[|p| - 1] == "" then DropTrailingEmpty(p[..|p| - 1])
    else p
  }

  /**
   * `s.split(d)` for a one-character, non-special delimiter: when `d` does not
   * occur the result is `[s]` (even for the empty string); otherwise the pieces
   * with the trailing empty ones removed.
   */
  function JavaSplit(s: string, d: char): (r: seq<string>)
    ensures forall k :: 0 <= k < |r| ==> d !in r[k]
    ensures d !in s ==> r == [s]
    ensures d in s ==> (r == [] || r[|r| - 1] != "")
    ensures d in s ==> |r| <= |Pieces(s, d)| && r == Pieces(s, d)[..|r|]
    ensures d in s ==> forall k :: |r| <= k < |Pieces(s, d)| ==> Pieces(s, d)[k] == ""
  {
    if d !in s then [s] else DropTrailingEmpty(Pieces(s, d))
  }

  lemma {:induction false} JoinHasDelimiter(names: seq<string>, d: char)
    requires forall k :: 0 <= k < |names| ==> d !in names[k]
    ensures d in Join([d], names) <==> |names| > 1
    decreases |names|
  {
    if |names| > 1 {
      var j := Join([d], names);
      assert j[|names[0]|] == d;
    }
  }

  lemma {:induction false} PiecesOfRun(n: string, t: string, d: char)
    requires d !in n
    ensures Pieces(n + [d] + t, d) == [n] + Pieces(t, d)
    decreases |n|
  {
    if n == [] {
      assert n + [d] + t == [d] + t;
      assert ([d] + t)[1..] == t;
    } else {
      assert (n + [d] + t)[1..] == n[1..] + [d] + t;
      PiecesOfRun(n[1..], t, d);
      assert [n[0]] + n[1..] == n;
    }
  }

  lemma {:induction false} PiecesOfFree(n: string, d: char)
    requires d !in n
    ensures Pieces(n, d) == [n]
    decreases |n|
  {
    if n != [] {
      PiecesOfFree(n[1..], d);
      assert [n[0]] + n[1..] == n;
    }
  }

  /** Pieces undoes Join for delimiter-free names. */
  lemma {:induction false} PiecesOfJoin(names: seq<string>, d: char)
    requires names != []
    requires forall k :: 0 <= k < |names| ==> d !in names[k]
    ensures Pieces(Join([d], names), d) == names
    decreases |names|
  {
    if |names| == 1 {
      PiecesOfFree(names[0], d);
    } else {
      PiecesOfJoin(names[1..], d);
      PiecesOfRun(names[0], Join([d], names[1..]), d);
      assert [names[0]] + names[1..] == names;
    }
  }

  /**
   * A list written out with `String.join(",", names)` is read back by
   * `split(",")` exactly when no name holds the delimiter and there is no
   * trailing empty name for Java to drop.
   */
  lemma SplitOfJoin(names: seq<string>, d: char)
    requires names != []
    requires forall k :: 0 <= k < |names| ==> d !in names[k]
    requires |names| > 1 ==> names[|names| - 1] != ""
    ensures JavaSplit(Join([d], names), d) == names
  {
    JoinHasDelimiter(names, d);
    if |names| > 1 {
      PiecesOfJoin(names, d);
    }
  }

  /** Example of Java's trailing-empty rule: "COMMON," splits to ["COMMON"]. */
  lemma SplitDropsTrailingEmpty()
    ensures JavaSplit("COMMON,", ',') == ["COMMON"]
  {
    assert ',' in "COMMON,";
    PiecesOfRun("COMMON", "", ',');
    assert "COMMON" + [','] + "" == "COMMON,";
  }
}
