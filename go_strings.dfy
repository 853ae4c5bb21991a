/**
 * The four functions of Go's `strings` package that the credential code uses,
 * over `seq<char>` and specialised to a one-character separator or cut set:
 * `strings.Split`, `strings.Join`, `strings.Trim` and `strings.HasSuffix`.
 */
module GoStrings {

  /** Number of occurrences of `c` in `s`. */
  function Count(s: string, c: char): (n: nat)
    ensures n == 0 <==> c !in s
  {
    if s == [] then 0 else (if s[0] == c then 1 else 0) + Count(s[1..], c)
  }

  /**
   * `strings.Split(s, string(sep))`: the pieces of `s` between occurrences of
   * `sep`, one more than there are separators. As in Go, the empty string splits
   * into one empty piece.
   */
  function Split(s: string, sep: char): (parts: seq<string>)
    ensures |parts| == Count(s, sep) + 1
  {
    if s == [] then [[]]
    else
      var rest := Split(s[1..], sep);
      if s[0] == sep then [[]] + rest
      else [[s[0]] + rest[0]] + rest[1..]
  }

  /**
   * `strings.Join(parts, string(sep))`: the join starts with the first piece;
   * `JoinCount`, `JoinSplit` and `SplitJoin` state the rest.
   */
  function Join(parts: seq<string>, sep: char): (r: string)
    ensures |parts| >= 1 ==> |parts[0]| <= |r| && r[..|parts[0]|] == parts[0]
  {
    if |parts| == 0 then []
    else if |parts| == 1 then parts[0]
    else parts[0] + [sep] + Join(parts[1..], sep)
  }

  /** Joining pieces free of `sep` puts one separator between each neighbouring pair. */
  lemma {:induction false} JoinCount(parts: seq<string>, sep: char)
    requires |parts| >= 1
    requires forall i :: 0 <= i < |parts| ==> sep !in parts[i]
    ensures Count(Join(parts, sep), sep) == |parts| - 1
  {
    if |parts| > 1 {
      var tail := Join(parts[1..], sep);
      JoinCount(parts[1..], sep);
      CountAppend(parts[0] + [sep], tail, sep);
      CountAppend(parts[0], [sep], sep);
    }
  }

  /** Occurrences in a concatenation add up. */
  lemma {:induction false} CountAppend(a: string, b: string, c: char)
    ensures Count(a + b, c) == Count(a, c) + Count(b, c)
  {
    if a == [] {
      assert a + b == b;
    } else {
      assert (a + b)[1..] == a[1..] + b;
      CountAppend(a[1..], b, c);
    }
  }

  /** No piece of a split holds the separator. */
  lemma {:induction false} SplitPiecesWithoutSep(s: string, sep: char)
    ensures forall i :: 0 <= i < |Split(s, sep)| ==> sep !in Split(s, sep)[i]
  {
    if s != [] {
      SplitPiecesWithoutSep(s[1..], sep);
    }
  }

  /** Splitting at a separator distributes over the pieces on either side of it. */
  lemma {:induction false} SplitAround(a: string, sep: char, b: string)
    ensures Split(a + [sep] + b, sep) == Split(a, sep) + Split(b, sep)
  {
    if a == [] {
      assert a + [sep] + b == [sep] + b;
      assert ([sep] + b)[1..] == b;
    } else {
      assert (a + [sep] + b)[1..] == a[1..] + [sep] + b;
      SplitAround(a[1..], sep, b);
    }
  }

  /** A string without the separator is one piece. */
  lemma {:induction false} SplitWithoutSep(s: string, sep: char)
    requires sep !in s
    ensures Split(s, sep) == [s]
  {
    if s != [] {
      SplitWithoutSep(s[1..], sep);
      assert [s[0]] + s[1..] == s;
    }
  }

  /** Joining the pieces of a split gives back the string. */
  lemma {:induction false} JoinSplit(s: string, sep: char)
    ensures Join(Split(s, sep), sep) == s
  {
    if s != [] {
      var rest := Split(s[1..], sep);
      JoinSplit(s[1..], sep);
      if s[0] == sep {
        JoinEmptyFirst(rest, sep);
      } else {
        JoinExtendFirst(s[0], rest, sep);
      }
      assert [s[0]] + s[1..] == s;
    }
  }

  /** An empty first piece contributes only its separator. */
  lemma JoinEmptyFirst(parts: seq<string>, sep: char)
    requires |parts| >= 1
    ensures Join([[]] + parts, sep) == [sep] + Join(parts, sep)
  {
  }

  /** A character put before the first piece comes first in the join. */
  lemma JoinExtendFirst(c: char, parts: seq<string>, sep: char)
    requires |parts| >= 1
    ensures Join([[c] + parts[0]] + parts[1..], sep) == [c] + Join(parts, sep)
  {
  }

  /** Splitting a join of separator-free pieces gives back the pieces. */
  lemma {:induction false} SplitJoin(parts: seq<string>, sep: char)
    requires |parts| >= 1
    requires forall i :: 0 <= i < |parts| ==> sep !in parts[i]
    ensures Split(Join(parts, sep), sep) == parts
  {
    SplitWithoutSep(parts[0], sep);
    if |parts| > 1 {
      SplitJoin(parts[1..], sep);
      SplitAround(parts[0], sep, Join(parts[1..], sep));
      assert [parts[0]] + parts[1..] == parts;
    }
  }

  /** Length of the run of `c` that `s` starts with. */
  function LeadingRun(s: string, c: char): (k: nat)
    ensures k <= |s|
  {
    if s != [] && s[0] == c then 1 + LeadingRun(s[1..], c) else 0
  }

  /** Length of the run of `c` that `s` ends with. */
  function TrailingRun(s: string, c: char): (k: nat)
    ensures k <= |s|
  {
    if s != [] && s[|s| - 1] == c then 1 + TrailingRun(s[..|s| - 1], c) else 0
  }

  /** The leading run is all `c` and is followed by something else or by nothing. */
  lemma {:induction false} LeadingRunIsRun(s: string, c: char)
    ensures forall i :: 0 <= i < LeadingRun(s, c) ==> s[i] == c
    ensures LeadingRun(s, c) < |s| ==> s[LeadingRun(s, c)] != c
  {
    if s != [] && s[0] == c {
      LeadingRunIsRun(s[1..], c);
      forall i | 1 <= i < LeadingRun(s, c) ensures s[i] == c {
        assert s[i] == s[1..][i - 1];
      }
    }
  }

  /** The trailing run is all `c` and is preceded by something else or by nothing. */
  lemma {:induction false} TrailingRunIsRun(s: string, c: char)
    ensures forall i :: |s| - TrailingRun(s, c) <= i < |s| ==> s[i] == c
    ensures TrailingRun(s, c) < |s| ==> s[|s| - 1 - TrailingRun(s, c)] != c
  {
    if s != [] && s[|s| - 1] == c {
      var init := s[..|s| - 1];
      TrailingRunIsRun(init, c);
      forall i | |s| - TrailingRun(s, c) <= i < |s| - 1 ensures s[i] == c {
        assert s[i] == init[i];
      }
    }
  }

  /** `strings.TrimLeft(s, string(c))`: `s` after its leading run of `c`. */
  function TrimLeft(s: string, c: char): (r: string)
    ensures r == s[LeadingRun(s, c)..]
  {
    if s != [] && s[0] == c then TrimLeft(s[1..], c) else s
  }

  /** `strings.TrimRight(s, string(c))`: `s` before its trailing run of `c`. */
  function TrimRight(s: string, c: char): (r: string)
    ensures r == s[..|s| - TrailingRun(s, c)]
  {
    if s != [] && s[|s| - 1] == c then TrimRight(s[..|s| - 1], c) else s
  }

  /** True when `s` neither starts nor ends with `c`. */
  predicate NoEdge(s: string, c: char)
  {
    s == [] || (s[0] != c && s[|s| - 1] != c)
  }

  /** `strings.Trim(s, string(c))`: both runs of `c` cut off; what is left neither starts nor ends with `c`. */
  function Trim(s: string, c: char): (r: string)
    ensures NoEdge(r, c)
  {
    TrimEdges(s, c);
    TrimRight(TrimLeft(s, c), c)
  }

  /** The two-sided trim neither starts nor ends with `c`. */
  lemma TrimEdges(s: string, c: char)
    ensures NoEdge(TrimRight(TrimLeft(s, c), c), c)
  {
    var left := TrimLeft(s, c);
    var r := TrimRight(left, c);
    if r != [] {
      LeadingRunIsRun(s, c);
      TrailingRunIsRun(left, c);
      assert r[0] == left[0] == s[LeadingRun(s, c)];
      assert r[|r| - 1] == left[|left| - 1 - TrailingRun(left, c)];
    }
  }

  /**
   * What the trim keeps is the slice of `s` after its leading run of `c`, and
   * what follows that slice in `s` is all `c`.
   */
  lemma TrimIsSlice(s: string, c: char)
    ensures LeadingRun(s, c) + |Trim(s, c)| <= |s|
    ensures Trim(s, c) == s[LeadingRun(s, c)..LeadingRun(s, c) + |Trim(s, c)|]
    ensures forall i :: 0 <= i < LeadingRun(s, c) ==> s[i] == c
    ensures forall i :: LeadingRun(s, c) + |Trim(s, c)| <= i < |s| ==> s[i] == c
  {
    var k := LeadingRun(s, c);
    var left := TrimLeft(s, c);
    var j := TrailingRun(left, c);
    LeadingRunIsRun(s, c);
    TrailingRunIsRun(left, c);
    forall i | k + |left| - j <= i < |s| ensures s[i] == c {
      assert s[i] == left[i - k];
    }
  }

  /** A string that neither starts nor ends with the cut character is its own trim. */
  lemma TrimNoEdge(s: string, c: char)
    requires NoEdge(s, c)
    ensures Trim(s, c) == s
  {

  }

  /** Trimming twice is trimming once. */
  lemma TrimIdempotent(s: string, c: char)
    ensures Trim(Trim(s, c), c) == Trim(s, c)
  {

  }

  /** `strings.HasSuffix(s, suffix)`: `s` is some text followed by `suffix`. */
  predicate HasSuffix(s: string, suffix: string)
    ensures HasSuffix(s, suffix) <==> exists p :: s == p + suffix
  {
    if |suffix| <= |s| && s[|s| - |suffix|..] == suffix then
      assert s == s[..|s| - |suffix|] + suffix;
      true
    else
      false
  }
}
