/**
 * The S3 keys the cloud parser derives from the key of a split hand history:
 * where its JSON goes, and where the summary of its tournament is.
 */
module Paths {
  import opened Wrappers
  import opened Text
  import opened Winamax

  // ---------------------------------------------------------------------
  // Destination of the parsed hand
  // ---------------------------------------------------------------------

  /** `get_destination_path`: every `split` becomes `parsed`, then every `.txt` becomes `.json`. */
  function GetDestinationPath(historyPath: string): (r: string)
    ensures !Contains(historyPath, "split") && !Contains(historyPath, ".txt") ==> r == historyPath
  {
    Replace(Replace(historyPath, "split", "parsed"), ".txt", ".json")
  }

  /** Two strings that differ at a position both reach do not agree on their common length. */
  lemma DifferAt(x: string, y: string, k: nat)
    requires k < |x| && k < |y| && x[k] != y[k]
    ensures !Compatible(x, y)
  {
    var n := if |x| < |y| then |x| else |y|;
    assert x[..n][k] != y[..n][k];
  }

  /** No `split` straddles an inserted `parsed`. */
  lemma SplitCleanParsed()
    ensures Clean("split", "parsed")
  {
    forall m | 0 < m < 5
      ensures !Compatible("split"[m..], "parsed")
    {
      if m == 1 { DifferAt("split"[m..], "parsed", 1); } else { DifferAt("split"[m..], "parsed", 0); }
    }
    forall m | 0 <= m < 6
      ensures !Compatible("parsed"[m..], "split")
    {
      if m == 3 { DifferAt("parsed"[m..], "split", 1); } else { DifferAt("parsed"[m..], "split", 0); }
    }
  }

  /** No `split` straddles an inserted `.json`. */
  lemma SplitCleanJson()
    ensures Clean("split", ".json")
  {
    forall m | 0 < m < 5
      ensures !Compatible("split"[m..], ".json")
    {
      DifferAt("split"[m..], ".json", 0);
    }
    forall m | 0 <= m < 5
      ensures !Compatible(".json"[m..], "split")
    {
      if m == 2 { DifferAt(".json"[m..], "split", 1); } else { DifferAt(".json"[m..], "split", 0); }
    }
  }

  /** No `.txt` straddles an inserted `.json`. */
  lemma TxtCleanJson()
    ensures Clean(".txt", ".json")
  {
    forall m | 0 < m < 4
      ensures !Compatible(".txt"[m..], ".json")
    {
      DifferAt(".txt"[m..], ".json", 0);
    }
    forall m | 0 <= m < 5
      ensures !Compatible(".json"[m..], ".txt")
    {
      if m == 0 { DifferAt(".json"[m..], ".txt", 1); } else { DifferAt(".json"[m..], ".txt", 0); }
    }
  }

  /** A destination path holds neither `split` nor `.txt`. */
  lemma DestinationClean(historyPath: string)
    ensures !Contains(GetDestinationPath(historyPath), "split")
    ensures !Contains(GetDestinationPath(historyPath), ".txt")
  {
    SplitCleanParsed();
    SplitCleanJson();
    TxtCleanJson();
    var once := Replace(historyPath, "split", "parsed");
    ReplaceLeavesNone(historyPath, "split", "parsed", "split");
    ReplaceLeavesNone(once, ".txt", ".json", "split");
    ReplaceLeavesNone(once, ".txt", ".json", ".txt");
  }

  /** Deriving the destination of a destination changes nothing. */
  lemma DestinationIdempotent(historyPath: string)
    ensures GetDestinationPath(GetDestinationPath(historyPath)) == GetDestinationPath(historyPath)
  {
    var d := GetDestinationPath(historyPath);
    DestinationClean(historyPath);
    ReplaceAbsent(d, "split", "parsed");
    ReplaceAbsent(d, ".txt", ".json");
  }

  // ---------------------------------------------------------------------
  // Path of the tournament summary
  // ---------------------------------------------------------------------

  /**
   * The length of the match of `\/([\d\-]+).txt` at `i`, if any. The `.` is
   * any character but a newline; after the greedy run of digits and dashes
   * the engine backtracks at most one character, since `txt` cannot start
   * inside the run.
   */
  function HandFileAt(s: string, i: nat): (r: Option<nat>)
    ensures r.Some? ==> i + r.value <= |s| && r.value >= 5 && s[i] == '/' && OccursAt(s, i + r.value - 3, "txt")
  {
    if i < |s| && s[i] == '/' then
      var run := RunLength(s, i + 1, IsHandIdChar);
      if run >= 1 && i + 1 + run < |s| && s[i + 1 + run] != '\n' && OccursAt(s, i + 2 + run, "txt") then Some(run + 5)
      else if run >= 2 && OccursAt(s, i + 1 + run, "txt") then Some(run + 4)
      else None
    else None
  }

  /** `re.sub` of that pattern by `.txt` over `s[i..]`: matches are replaced left to right, without overlap. */
  function SubHandFile(s: string, i: nat): string
    decreases |s| - i
  {
    if i >= |s| then []
    else
      var n := HandFileAt(s, i);
      if n.Some? then ".txt" + SubHandFile(s, i + n.value)
      else [s[i]] + SubHandFile(s, i + 1)
  }

  /**
   * `get_summary_path`: `histories/split` becomes `summaries`, then the file
   * name made of the hand number is dropped, so that the enclosing directory
   * name becomes the summary's file name.
   */
  function GetSummaryPath(splitPath: string): (r: string)
    ensures !Contains(splitPath, "histories/split") && !Contains(splitPath, "txt") ==> r == splitPath
  {
    SubUnchanged(splitPath);
    SubHandFile(Replace(splitPath, "histories/split", "summaries"), 0)
  }

  /** The substitution leaves a text without `txt` as it is. */
  lemma SubUnchanged(s: string)
    ensures !Contains(s, "txt") ==> SubHandFile(s, 0) == s
  {
    if !Contains(s, "txt") {
      SubWithoutTxt(s, 0);
    }
  }

  /** A text without `txt` is left unchanged by the substitution. */
  lemma {:induction false} SubWithoutTxt(s: string, i: nat)
    requires i <= |s| && !Contains(s, "txt")
    ensures SubHandFile(s, i) == s[i..]
    decreases |s| - i
  {
    if i < |s| {
      SubWithoutTxt(s, i + 1);
      assert s[i..] == [s[i]] + s[i + 1..];
    }
  }

  /** A window holding a character other than `t` and `x` is not `txt`. */
  lemma NotTxtAt(s: string, j: nat, k: nat)
    requires j <= k < j + 3 <= |s| && s[k] != 't' && s[k] != 'x'
    ensures !OccursAt(s, j, "txt")
  {
    assert s[j..j + 3][k - j] == s[k];
  }

  /** In `p + "/" + id + ".txt"`, where `p` has no `txt`, the only `txt` is the last one. */
  lemma OnlyFinalTxt(p: string, id: string, j: nat)
    requires !Contains(p, "txt") && forall k :: 0 <= k < |id| ==> IsHandIdChar(id[k])
    requires OccursAt(p + "/" + id + ".txt", j, "txt")
    ensures j == |p| + |id| + 2
  {
    var s := p + "/" + id + ".txt";
    if j + 3 <= |p| {
      PrefixOccurs(p, "/" + id + ".txt", j, "txt");
      assert false;
    } else if j < |p| + |id| + 2 {
      MiddleNotTxt(p, id, j);
      assert false;
    }
  }

  /** An occurrence that lies within the prefix `p` is an occurrence in `p`. */
  lemma PrefixOccurs(p: string, rest: string, j: nat, w: string)
    requires j + |w| <= |p| && OccursAt(p + rest, j, w)
    ensures OccursAt(p, j, w)
  {
    assert (p + rest)[j..j + |w|] == p[j..j + |w|];
  }

  /** No `txt` starts where its window would meet the `/`, the hand number or the `.`. */
  lemma MiddleNotTxt(p: string, id: string, j: nat)
    requires forall k :: 0 <= k < |id| ==> IsHandIdChar(id[k])
    requires |p| < j + 3 && j < |p| + |id| + 2
    ensures !OccursAt(p + "/" + id + ".txt", j, "txt")
  {
    var s := p + "/" + id + ".txt";
    var k := if j < |p| then |p| else j;
    if k == |p| {
      assert s[k] == '/';
    } else if k <= |p| + |id| {
      assert s[k] == id[k - |p| - 1];
    } else {
      assert s[k] == '.';
    }
    NotTxtAt(s, j, k);
  }

  /** No match starts inside `p`: a run from a `/` of `p` stops at the `/` before `id`, short of the final `txt`. */
  lemma NoHandFileBefore(p: string, id: string, i: nat)
    requires i < |p| && !Contains(p, "txt") && forall k :: 0 <= k < |id| ==> IsHandIdChar(id[k])
    ensures HandFileAt(p + "/" + id + ".txt", i).None?
  {
    var s := p + "/" + id + ".txt";
    if s[i] == '/' {
      var run := RunLength(s, i + 1, IsHandIdChar);
      assert s[|p|] == '/';
      assert i + 1 + run <= |p|;
      if OccursAt(s, i + 2 + run, "txt") {
        OnlyFinalTxt(p, id, i + 2 + run);
      }
      if OccursAt(s, i + 1 + run, "txt") {
        OnlyFinalTxt(p, id, i + 1 + run);
      }
    }
  }

  /** The match at the `/` before `id` covers the rest of the text. */
  lemma HandFileAtEnd(p: string, id: string)
    requires id != [] && forall k :: 0 <= k < |id| ==> IsHandIdChar(id[k])
    ensures HandFileAt(p + "/" + id + ".txt", |p|) == Some(|id| + 5)
  {
    var s := p + "/" + id + ".txt";
    var e := |p| + |id| + 2;
    forall k | |p| + 1 <= k < |p| + 1 + |id|
      ensures IsHandIdChar(s[k])
    {
      assert s[k] == id[k - |p| - 1];
    }
    assert s[|p| + 1 + |id|] == '.';
    RunUntil(s, |p| + 1, |p| + 1 + |id|, IsHandIdChar);
    assert s[e..e + 3] == "txt";
  }

  /** From any position of `p` on, the substitution keeps the rest of `p` and turns the hand file into `.txt`. */
  lemma {:induction false} SubBeforeHandFile(p: string, id: string, i: nat)
    requires i <= |p| && !Contains(p, "txt") && id != [] && forall k :: 0 <= k < |id| ==> IsHandIdChar(id[k])
    ensures SubHandFile(p + "/" + id + ".txt", i) == p[i..] + ".txt"
    decreases |p| - i
  {
    var s := p + "/" + id + ".txt";
    if i < |p| {
      NoHandFileBefore(p, id, i);
      assert s[i] == p[i];
      SubBeforeHandFile(p, id, i + 1);
      assert p[i..] == [p[i]] + p[i + 1..];
    } else {
      HandFileAtEnd(p, id);
      assert SubHandFile(s, |s|) == [];
    }
  }

  /** `re.sub` turns `p + "/" + id + ".txt"` into `p + ".txt"` when the hand number is digits and dashes and `p` holds no `txt`. */
  lemma SubHandFileName(p: string, id: string)
    requires !Contains(p, "txt") && id != [] && forall k :: 0 <= k < |id| ==> IsHandIdChar(id[k])
    ensures SubHandFile(p + "/" + id + ".txt", 0) == p + ".txt"
  {
    SubBeforeHandFile(p, id, 0);
  }

  /** An occurrence of `a` in `x + a + y` that starts inside `x` lies in `x + a[..|a| - 1]`. */
  lemma EarlyOccurrence(x: string, a: string, y: string, j: nat)
    requires a != [] && j < |x| && OccursAt(x + a + y, j, a)
    ensures OccursAt(x + a[..|a| - 1], j, a)
  {
    var s := x + a + y;
    var t := x + a[..|a| - 1];
    forall k | 0 <= k < |a|
      ensures t[j + k] == a[k]
    {
      assert s[j..j + |a|][k] == s[j + k];
    }
    assert t[j..j + |a|] == a;
  }

  /** Replacing the only occurrence of `a`, placed between `x` and `y`. */
  lemma ReplaceSingle(x: string, a: string, y: string, b: string)
    requires a != [] && !Contains(x + a[..|a| - 1], a) && !Contains(y, a)
    ensures Replace(x + a + y, a, b) == x + b + y
  {
    var s := x + a + y;
    assert s[|x|..|x| + |a|] == a;
    forall j | 0 <= j < |x|
      ensures !OccursAt(s, j, a)
    {
      if OccursAt(s, j, a) {
        EarlyOccurrence(x, a, y, j);
      }
    }
    assert OccursAt(s, |x|, a);
    assert Contains(s, a);
    var f := FirstIndex(s, a);
    assert f.value <= |x|;
    assert s[..|x|] == x;
    assert s[|x| + |a|..] == y;
    ReplaceAbsent(y, a, b);
  }

  /** No `txt` appears around an inserted `summaries`. */
  lemma SummariesClean()
    ensures Clean("txt", "summaries")
  {
    forall m | 0 < m < 3
      ensures !Compatible("txt"[m..], "summaries")
    {
      DifferAt("txt"[m..], "summaries", 0);
    }
    forall m | 0 <= m < 9
      ensures !Compatible("summaries"[m..], "txt")
    {
      DifferAt("summaries"[m..], "txt", 0);
    }
  }

  /**
   * The summary of the hand `id` stored under `p + "histories/split" + q`
   * is the file named after the last directory, under `summaries`.
   */
  lemma SummaryPathOfHand(p: string, q: string, id: string)
    requires !Contains(p + "histories/spli", "histories/split")
    requires !Contains(q + "/" + id + ".txt", "histories/split")
    requires !Contains(p, "txt") && !Contains(q, "txt")
    requires id != [] && forall k :: 0 <= k < |id| ==> IsHandIdChar(id[k])
    ensures GetSummaryPath(p + "histories/split" + q + "/" + id + ".txt") == p + "summaries" + q + ".txt"
  {
    var tail := q + "/" + id + ".txt";
    assert "histories/split"[..14] == "histories/spli";
    ReplaceSingle(p, "histories/split", tail, "summaries");
    assert p + "histories/split" + q + "/" + id + ".txt" == p + "histories/split" + tail;
    assert p + "summaries" + tail == (p + "summaries" + q) + "/" + id + ".txt";
    SummariesClean();
    JoinClean(p, "summaries", q, "txt");
    SubHandFileName(p + "summaries" + q, id);
  }
}
