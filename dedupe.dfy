/** scripts/dedupe-playlist.mjs: read a playlist, keep the first occurrence
    of every line, and write the kept lines back, each followed by "\n".
    The file read and the command-line options are inputs; the file written
    is an `OutFile` whose contents grow with each write. */
module Dedupe {
  import opened JsText
  import opened Seqs

  /** The lines of `ls` in order of first occurrence, each once. */
  function Dedup(ls: seq<string>): (r: seq<string>)
    ensures |r| <= |ls|
    ensures forall k :: 0 <= k < |r| ==> r[k] in ls
    decreases |ls|
  {
    if ls == [] then []
    else
      var d := Dedup(ls[..|ls| - 1]);
      if ls[|ls| - 1] in d then d else d + [ls[|ls| - 1]]
  }

  lemma DedupStep(ls: seq<string>, x: string)
    ensures Dedup(ls + [x]) == if x in Dedup(ls) then Dedup(ls) else Dedup(ls) + [x]
  {
    assert (ls + [x])[..|ls|] == ls;
  }

  /** The output lines are exactly the input lines, as a set. */
  lemma {:induction false} DedupSameLines(ls: seq<string>, x: string)
    ensures x in Dedup(ls) <==> x in ls
    decreases |ls|
  {
    if ls != [] {
      var init := ls[..|ls| - 1];
      DedupSameLines(init, x);
      assert ls == init + [ls[|ls| - 1]];
    }
  }

  /** No line is written twice. */
  lemma {:induction false} DedupNoDup(ls: seq<string>)
    ensures NoDup(Dedup(ls))
    decreases |ls|
  {
    if ls != [] {
      var init, x := ls[..|ls| - 1], ls[|ls| - 1];
      DedupNoDup(init);
      var d := Dedup(init);
      if x !in d {
        forall i, j | 0 <= i < j < |d + [x]| ensures (d + [x])[i] != (d + [x])[j] {
          if j == |d| {
            assert (d + [x])[i] == d[i];
            assert d[i] in d;
          }
        }
      }
    }
  }

  /** The index of the first occurrence of `x` in `ls`. */
  function FirstIndex(ls: seq<string>, x: string): (k: nat)
    requires x in ls
    ensures k < |ls| && ls[k] == x
    ensures forall j :: 0 <= j < k ==> ls[j] != x
  {
    if ls[0] == x then 0 else 1 + FirstIndex(ls[1..], x)
  }

  lemma FirstIndexExtend(ls: seq<string>, x: string, y: string)
    requires y in ls
    ensures FirstIndex(ls + [x], y) == FirstIndex(ls, y)
  {
    var a, b := FirstIndex(ls + [x], y), FirstIndex(ls, y);
    assert (ls + [x])[b] == y;
  }

  /** The kept lines come in the order of their first occurrence. */
  lemma {:induction false} DedupFirstOccurrenceOrder(ls: seq<string>, i: nat, j: nat)
    requires i < j < |Dedup(ls)|
    ensures Dedup(ls)[i] in ls && Dedup(ls)[j] in ls
    ensures FirstIndex(ls, Dedup(ls)[i]) < FirstIndex(ls, Dedup(ls)[j])
    decreases |ls|
  {
    var init, x := ls[..|ls| - 1], ls[|ls| - 1];
    assert ls == init + [x];
    var d := Dedup(init);
    var di, dj := Dedup(ls)[i], Dedup(ls)[j];
    DedupSameLines(ls, di);
    DedupSameLines(ls, dj);
    DedupSameLines(init, di);
    DedupSameLines(init, dj);
    if x in d || j < |d| {
      assert di == d[i] && dj == d[j];
      DedupFirstOccurrenceOrder(init, i, j);
      FirstIndexExtend(init, x, di);
      FirstIndexExtend(init, x, dj);
    } else {
      assert di == d[i] && dj == x;
      FirstIndexExtend(init, x, di);
      DedupSameLines(init, x);
      assert FirstIndex(ls, x) == |init|;
    }
  }

  /** Lines that are already distinct pass unchanged. */
  lemma {:induction false} DedupOfDistinct(ls: seq<string>)
    requires NoDup(ls)
    ensures Dedup(ls) == ls
    decreases |ls|
  {
    if ls != [] {
      var init, x := ls[..|ls| - 1], ls[|ls| - 1];
      assert NoDup(init) by {
        forall i, j | 0 <= i < j < |init| ensures init[i] != init[j] {
          assert init[i] == ls[i] && init[j] == ls[j];
        }
      }
      DedupOfDistinct(init);
      assert ls == init + [x];
    }
  }

  /** Deduplicating the output again changes nothing. */
  lemma DedupIdempotent(ls: seq<string>)
    ensures Dedup(Dedup(ls)) == Dedup(ls)
  {
    DedupNoDup(ls);
    DedupOfDistinct(Dedup(ls));
  }

  /** `getUniqueLinesFromFile` once the text is read: split on "\n", add each
      line to the `observed` Set unless it is already there, and return the
      Set's contents in insertion order. `unique` is that insertion order. */
  method UniqueLines(text: string) returns (unique: seq<string>)
    ensures unique == Dedup(Split(text, '\n'))
  {
    var lines := Split(text, '\n');
    var observed: set<string> := {};
    unique := [];
    for i := 0 to |lines|
      invariant unique == Dedup(lines[..i])
      invariant forall x :: x in observed <==> x in unique
    {
      assert lines[..i + 1] == lines[..i] + [lines[i]];
      DedupStep(lines[..i], lines[i]);
      if lines[i] in observed {
        continue;
      }
      observed := observed + {lines[i]};
      unique := unique + [lines[i]];
    }
    assert lines[..|lines|] == lines;
  }

  /** A file opened with flag "w": empty at first, each write appends. */
  class OutFile {
    var contents: string

    constructor ()
      ensures contents == ""
    {
      contents := "";
    }

    method Write(data: string)
      modifies this
      ensures contents == old(contents) + data
    {
      contents := contents + data;
    }
  }

  /** The write loop: `outfile.write(line + "\n")` for each line in order. */
  method WriteLines(out: OutFile, lines: seq<string>)
    modifies out
    ensures out.contents == old(out.contents) + Terminated(lines)
  {
    for i := 0 to |lines|
      invariant out.contents == old(out.contents) + Terminated(lines[..i])
    {
      assert lines[..i + 1][..i] == lines[..i];
      out.Write(lines[i] + "\n");
    }
    assert lines[..|lines|] == lines;
  }

  /** The whole script on the input text: the text of the output file. */
  function DedupeFile(text: string): (r: string)
    ensures Split(r, '\n') == Dedup(Split(text, '\n')) + [""]
  {
    var ls := Split(text, '\n');
    NoNewlineInDedup(ls);
    SplitTerminated(Dedup(ls));
    Terminated(Dedup(ls))
  }

  /** The rendered file is the lines joined by "\n" with an empty last piece. */
  lemma {:induction false} TerminatedIsJoin(ls: seq<string>)
    ensures Terminated(ls) == Join(ls + [""], "\n")
    decreases |ls|
  {
    if ls != [] {
      var init, x := ls[..|ls| - 1], ls[|ls| - 1];
      TerminatedIsJoin(init);
      JoinTail(init, x, "\n");
      assert init + [x, ""] == ls + [""];
    }
  }

  /** The rendered file splits back into its lines plus the empty piece
      after the final "\n". */
  lemma SplitTerminated(ls: seq<string>)
    requires forall k :: 0 <= k < |ls| ==> '\n' !in ls[k]
    ensures Split(Terminated(ls), '\n') == ls + [""]
  {
    TerminatedIsJoin(ls);
    SplitJoin(ls + [""], '\n');
  }

  lemma {:induction false} JoinTail(ps: seq<string>, x: string, sep: string)
    ensures Join(ps + [x, ""], sep) == Join(ps + [""], sep) + x + sep
    decreases |ps|
  {
    if ps != [] {
      JoinTail(ps[1..], x, sep);
      assert (ps + [x, ""])[1..] == ps[1..] + [x, ""];
      assert (ps + [""])[1..] == ps[1..] + [""];
    }
  }

  lemma SplitOneTerminatedLine()
    ensures Split("a\n", '\n') == ["a", ""]
  {
    SplitTerminated(["a"]);
    assert Terminated(["a"]) == "a\n";
  }

  lemma DedupeOneLine()
    ensures DedupeFile("a") == "a\n"
  {
    SplitNoSeparator("a", '\n');
    assert Dedup(["a"]) == ["a"] by { DedupStep([], "a"); }
    assert Terminated(["a"]) == "a\n";
  }

  /** A file that ends with "\n" gains one blank line: "a\n" becomes
      "a\n\n", and the script is therefore not idempotent on files. */
  lemma TrailingNewlineAddsBlankLine()
    ensures Split("a\n", '\n') == ["a", ""]
    ensures DedupeFile("a") == "a\n"
    ensures DedupeFile("a\n") == "a\n\n"
  {
    SplitOneTerminatedLine();
    DedupeOneLine();
    assert Dedup(["a"]) == ["a"] by { DedupStep([], "a"); }
    assert Dedup(["a", ""]) == ["a", ""] by { DedupStep(["a"], ""); }
    assert Terminated(["a", ""]) == "a\n\n" by { assert ["a", ""][..1] == ["a"]; }
  }

  /** Running the script on its own output twice changes nothing more: the
      single blank line is kept once. */
  lemma DedupeFileStabilises(text: string)
    ensures DedupeFile(DedupeFile(DedupeFile(text))) == DedupeFile(DedupeFile(text))
  {
    var d := Dedup(Split(text, '\n'));
    NoNewlineInDedup(Split(text, '\n'));
    SplitTerminated(d);
    var e := Dedup(d + [""]);
    DedupStep(d, "");
    DedupNoDup(Split(text, '\n'));
    DedupOfDistinct(d);
    NoNewlineInDedup(d + [""]);
    SplitTerminated(e);
    DedupStep(e, "");
    assert "" in e by {
      DedupSameLines(d + [""], "");
      assert (d + [""])[|d|] == "";
    }
    DedupIdempotent(d + [""]);
  }

  lemma NoNewlineInDedup(ls: seq<string>)
    requires forall k :: 0 <= k < |ls| ==> '\n' !in ls[k]
    ensures forall k :: 0 <= k < |Dedup(ls)| ==> '\n' !in Dedup(ls)[k]
  {
    forall k | 0 <= k < |Dedup(ls)| ensures '\n' !in Dedup(ls)[k] {
      DedupSameLines(ls, Dedup(ls)[k]);
    }
  }
}
