/**
 * The greedy chunking step of the zip chunker: an ordered list of files is
 * cut into consecutive groups whose total size stays within a maximum,
 * closing a group as soon as the next file would overflow it.
 *
 * `file.stat().st_size` is the parameter `stat`: `Some(size)` for a file
 * whose size can be read, `None` where `stat` raises `OSError`.
 */
module ZipChunker {
  import opened Wrappers

  /** Every file of `g` has a readable size. */
  predicate Sized<P>(g: seq<P>, stat: P -> Option<nat>) {
    forall i :: 0 <= i < |g| ==> stat(g[i]).Some?
  }

  /** The files whose size can be read, in their original order; the others are skipped. */
  function Kept<P>(files: seq<P>, stat: P -> Option<nat>): (r: seq<P>)
    ensures Sized(r, stat)
    ensures |r| <= |files|
  {
    if files == [] then []
    else
      var last := files[|files| - 1];
      Kept(files[..|files| - 1], stat) + (if stat(last).Some? then [last] else [])
  }

  /** The total size of a group of sized files. */
  function Total<P>(g: seq<P>, stat: P -> Option<nat>): nat
    requires Sized(g, stat)
  {
    if g == [] then 0 else Total(g[..|g| - 1], stat) + stat(g[|g| - 1]).value
  }

  /** The groups laid end to end. */
  function Flatten<P>(groups: seq<seq<P>>): seq<P> {
    if groups == [] then [] else groups[0] + Flatten(groups[1..])
  }

  /**
   * The shape of a greedy grouping: no group is empty, a group of two or
   * more files fits within the maximum (a single oversized file is a group of
   * its own), and each group was closed only because the first file of the
   * next one would have overflowed it.
   */
  ghost predicate GreedyShape<P>(groups: seq<seq<P>>, stat: P -> Option<nat>, maxGroupSize: int) {
    && (forall k :: 0 <= k < |groups| ==> groups[k] != [] && Sized(groups[k], stat))
    && (forall k :: 0 <= k < |groups| && 2 <= |groups[k]| ==> Total(groups[k], stat) <= maxGroupSize)
    && (forall k :: 0 <= k < |groups| - 1 ==>
          Total(groups[k], stat) + stat(groups[k + 1][0]).value > maxGroupSize)
  }

  /** What `group_files` returns for the sized files `items`: a greedy grouping that covers them in order. */
  ghost predicate IsGreedyGrouping<P>(groups: seq<seq<P>>, items: seq<P>, stat: P -> Option<nat>, maxGroupSize: int) {
    Flatten(groups) == items && GreedyShape(groups, stat, maxGroupSize)
  }

  /** Closing the current group keeps the shape when the group is non-empty, fits, and was closed by an overflow. */
  lemma GreedyShapeSnoc<P>(groups: seq<seq<P>>, g: seq<P>, stat: P -> Option<nat>, maxGroupSize: int)
    requires GreedyShape(groups, stat, maxGroupSize)
    requires g != [] && Sized(g, stat)
    requires 2 <= |g| ==> Total(g, stat) <= maxGroupSize
    requires groups != [] ==> Total(groups[|groups| - 1], stat) + stat(g[0]).value > maxGroupSize
    ensures GreedyShape(groups + [g], stat, maxGroupSize)
  {
    var gs := groups + [g];
    forall k | 0 <= k < |gs|
      ensures gs[k] != [] && Sized(gs[k], stat)
      ensures 2 <= |gs[k]| ==> Total(gs[k], stat) <= maxGroupSize
    {
      if k < |groups| { assert gs[k] == groups[k]; } else { assert gs[k] == g; }
    }
    forall k | 0 <= k < |gs| - 1
      ensures Total(gs[k], stat) + stat(gs[k + 1][0]).value > maxGroupSize
    {
      assert gs[k] == groups[k];
      if k + 1 < |groups| { assert gs[k + 1] == groups[k + 1]; } else { assert gs[k + 1] == g; }
    }
  }

  /**
   * The state of `group_files` after it has read some files: `groups` are
   * closed greedily, `current` is the open group with running size
   * `currentSize`, and together they hold exactly the sized files read so far.
   */
  ghost predicate Progress<P>(groups: seq<seq<P>>, current: seq<P>, currentSize: int, kept: seq<P>,
                        stat: P -> Option<nat>, maxGroupSize: int)
  {
    && Sized(current, stat) && currentSize == Total(current, stat)
    && Flatten(groups) + current == kept
    && GreedyShape(groups, stat, maxGroupSize)
    && (2 <= |current| ==> currentSize <= maxGroupSize)
    && (groups != [] ==>
          && current != []
          && Total(groups[|groups| - 1], stat) + stat(current[0]).value > maxGroupSize)
  }

  /** A file that fits (or starts an empty group) joins the open group. */
  lemma ProgressAppend<P>(groups: seq<seq<P>>, current: seq<P>, currentSize: int, kept: seq<P>,
                          file: P, stat: P -> Option<nat>, maxGroupSize: int)
    requires Progress(groups, current, currentSize, kept, stat, maxGroupSize)
    requires stat(file).Some?
    requires current == [] || currentSize + stat(file).value <= maxGroupSize
    ensures Progress(groups, current + [file], currentSize + stat(file).value, kept + [file], stat, maxGroupSize)
  {
    var next := current + [file];
    assert next[..|current|] == current;
    assert Flatten(groups) + next == kept + [file];
    if current != [] {
      assert next[0] == current[0];
    }
  }

  /** A file that would overflow a non-empty open group closes it and opens a new one. */
  lemma ProgressClose<P>(groups: seq<seq<P>>, current: seq<P>, currentSize: int, kept: seq<P>,
                         file: P, stat: P -> Option<nat>, maxGroupSize: int)
    requires Progress(groups, current, currentSize, kept, stat, maxGroupSize)
    requires stat(file).Some?
    requires current != [] && currentSize + stat(file).value > maxGroupSize
    ensures Progress(groups + [current], [file], stat(file).value, kept + [file], stat, maxGroupSize)
  {
    FlattenSnoc(groups, current);
    GreedyShapeSnoc(groups, current, stat, maxGroupSize);
    var closed := groups + [current];
    assert closed[|closed| - 1] == current;
    assert [file][..0] == [];
  }

  /** `group_files(files, max_group_size)`. */
  method GroupFiles<P>(files: seq<P>, stat: P -> Option<nat>, maxGroupSize: int) returns (groups: seq<seq<P>>)
    ensures IsGreedyGrouping(groups, Kept(files, stat), stat, maxGroupSize)
  {
    groups := [];
    var current: seq<P> := [];
    var currentSize := 0;
    for i := 0 to |files|
      // Compared with `true` so that the invariant is checked as one fact, not conjunct by conjunct.
      invariant Progress(groups, current, currentSize, Kept(files[..i], stat), stat, maxGroupSize) == true
    {
      var file := files[i];
      var size := stat(file);
      if size.None? {
        StepSkip(groups, current, currentSize, files, i, stat, maxGroupSize);
      } else if current != [] && currentSize + size.value > maxGroupSize {
        StepClose(groups, current, currentSize, files, i, stat, maxGroupSize);
        groups := groups + [current];
        current := [file];
        currentSize := size.value;
      } else {
        StepAppend(groups, current, currentSize, files, i, stat, maxGroupSize);
        current := current + [file];
        currentSize := currentSize + size.value;
      }
    }
    assert files[..|files|] == files;
    ProgressFinish(groups, current, currentSize, Kept(files, stat), stat, maxGroupSize);
    if current != [] {
      groups := groups + [current];
    }
  }

  /** A file whose size cannot be read is skipped and leaves the state as it was. */
  lemma StepSkip<P>(groups: seq<seq<P>>, current: seq<P>, currentSize: int, files: seq<P>, i: nat,
                    stat: P -> Option<nat>, maxGroupSize: int)
    requires i < |files| && stat(files[i]).None?
    requires Progress(groups, current, currentSize, Kept(files[..i], stat), stat, maxGroupSize)
    ensures Progress(groups, current, currentSize, Kept(files[..i + 1], stat), stat, maxGroupSize)
  {
    KeptStep(files, i, stat);
    assert Kept(files[..i + 1], stat) == Kept(files[..i], stat) + [];
  }

  /** A file that would overflow the open group closes it and starts the next one. */
  lemma StepClose<P>(groups: seq<seq<P>>, current: seq<P>, currentSize: int, files: seq<P>, i: nat,
                     stat: P -> Option<nat>, maxGroupSize: int)
    requires i < |files| && stat(files[i]).Some?
    requires Progress(groups, current, currentSize, Kept(files[..i], stat), stat, maxGroupSize)
    requires current != [] && currentSize + stat(files[i]).value > maxGroupSize
    ensures Progress(groups + [current], [files[i]], stat(files[i]).value, Kept(files[..i + 1], stat), stat, maxGroupSize)
  {
    KeptStep(files, i, stat);
    ProgressClose(groups, current, currentSize, Kept(files[..i], stat), files[i], stat, maxGroupSize);
  }

  /** A file that fits, or that is the first one, joins the open group. */
  lemma StepAppend<P>(groups: seq<seq<P>>, current: seq<P>, currentSize: int, files: seq<P>, i: nat,
                      stat: P -> Option<nat>, maxGroupSize: int)
    requires i < |files| && stat(files[i]).Some?
    requires Progress(groups, current, currentSize, Kept(files[..i], stat), stat, maxGroupSize)
    requires current == [] || currentSize + stat(files[i]).value <= maxGroupSize
    ensures Progress(groups, current + [files[i]], currentSize + stat(files[i]).value, Kept(files[..i + 1], stat),
                     stat, maxGroupSize)
  {
    KeptStep(files, i, stat);
    ProgressAppend(groups, current, currentSize, Kept(files[..i], stat), files[i], stat, maxGroupSize);
  }

  /** When the files run out, closing the open group (if any) completes a greedy grouping of the kept files. */
  lemma ProgressFinish<P>(groups: seq<seq<P>>, current: seq<P>, currentSize: int, kept: seq<P>,
                          stat: P -> Option<nat>, maxGroupSize: int)
    requires Progress(groups, current, currentSize, kept, stat, maxGroupSize)
    ensures IsGreedyGrouping(if current != [] then groups + [current] else groups, kept, stat, maxGroupSize)
  {
    if current != [] {
      FlattenSnoc(groups, current);
      GreedyShapeSnoc(groups, current, stat, maxGroupSize);
    } else {
      assert Flatten(groups) + current == Flatten(groups);
    }
  }

  /** One more file extends the kept files by that file when its size can be read, and by nothing otherwise. */
  lemma KeptStep<P>(files: seq<P>, i: nat, stat: P -> Option<nat>)
    requires i < |files|
    ensures Kept(files[..i + 1], stat) == Kept(files[..i], stat) + (if stat(files[i]).Some? then [files[i]] else [])
  {
    assert files[..i + 1][..i] == files[..i];
  }

  lemma {:induction false} FlattenSnoc<P>(groups: seq<seq<P>>, g: seq<P>)
    ensures Flatten(groups + [g]) == Flatten(groups) + g
  {
    if groups == [] {
      assert [] + [g] == [g];
    } else {
      assert (groups + [g])[1..] == groups[1..] + [g];
      FlattenSnoc(groups[1..], g);
    }
  }

  /** The total of a prefix never exceeds the total of the whole group. */
  lemma {:induction false} TotalPrefix<P>(g: seq<P>, j: nat, stat: P -> Option<nat>)
    requires Sized(g, stat) && j <= |g|
    ensures Sized(g[..j], stat) && Total(g[..j], stat) <= Total(g, stat)
  {
    if j < |g| {
      assert g[..|g| - 1][..j] == g[..j];
      TotalPrefix(g[..|g| - 1], j, stat);
    } else {
      assert g[..j] == g;
    }
  }

  /** A group that extends past a file which would have overflowed it is itself over the maximum. */
  lemma ClosedGroupOverflows<P>(g: seq<P>, m: nat, stat: P -> Option<nat>, maxGroupSize: int)
    requires Sized(g, stat) && m < |g|
    requires Total(g[..m], stat) + stat(g[m]).value > maxGroupSize
    ensures Total(g, stat) > maxGroupSize
  {
    TotalPrefix(g, m + 1, stat);
    assert g[..m + 1][..m] == g[..m];
  }

  /** The grouping of the files after the first group is itself greedy. */
  lemma GreedyGroupingTail<P>(groups: seq<seq<P>>, items: seq<P>, stat: P -> Option<nat>, maxGroupSize: int)
    requires groups != [] && IsGreedyGrouping(groups, items, stat, maxGroupSize)
    ensures items[..|groups[0]|] == groups[0]
    ensures IsGreedyGrouping(groups[1..], items[|groups[0]|..], stat, maxGroupSize)
  {
  }

  /** A grouping with no files has no groups, since no group is empty. */
  lemma NoItemsNoGroups<P>(groups: seq<seq<P>>, stat: P -> Option<nat>, maxGroupSize: int)
    requires IsGreedyGrouping(groups, [], stat, maxGroupSize)
    ensures groups == []
  {
    if groups != [] {
      assert false;
    }
  }

  /**
   * The first group of a greedy grouping is determined by the files: it is
   * never shorter than another greedy first group, because the file after it
   * would not have fitted, and never longer, by the same argument reversed.
   */
  lemma FirstGroupUnique<P>(a: seq<seq<P>>, b: seq<seq<P>>, items: seq<P>, stat: P -> Option<nat>, maxGroupSize: int)
    requires a != [] && b != []
    requires IsGreedyGrouping(a, items, stat, maxGroupSize)
    requires IsGreedyGrouping(b, items, stat, maxGroupSize)
    ensures |a[0]| <= |b[0]|
  {
    GreedyGroupingTail(a, items, stat, maxGroupSize);
    GreedyGroupingTail(b, items, stat, maxGroupSize);
    var n := |a[0]|;
    if |b[0]| < n {
      // b closed its first group before a did: the next file is b[1][0].
      var m := |b[0]|;
      assert |Flatten(b)| == m + |Flatten(b[1..])|;
      assert 1 < |b|;
      assert b[1][0] == items[m] == a[0][m];
      assert a[0][..m] == b[0];
      ClosedGroupOverflows(a[0], m, stat, maxGroupSize);
      assert false;
    }
  }

  /** `group_files` is fully determined by the greedy rule: two greedy groupings of the same files agree. */
  lemma {:induction false} GreedyGroupingUnique<P>(a: seq<seq<P>>, b: seq<seq<P>>, items: seq<P>, stat: P -> Option<nat>, maxGroupSize: int)
    requires IsGreedyGrouping(a, items, stat, maxGroupSize)
    requires IsGreedyGrouping(b, items, stat, maxGroupSize)
    ensures a == b
    decreases |items|
  {
    if items == [] {
      NoItemsNoGroups(a, stat, maxGroupSize);
      NoItemsNoGroups(b, stat, maxGroupSize);
    } else {
      if a == [] || b == [] {
        assert false;
      }
      FirstGroupUnique(a, b, items, stat, maxGroupSize);
      FirstGroupUnique(b, a, items, stat, maxGroupSize);
      GreedyGroupingTail(a, items, stat, maxGroupSize);
      GreedyGroupingTail(b, items, stat, maxGroupSize);
      GreedyGroupingUnique(a[1..], b[1..], items[|a[0]|..], stat, maxGroupSize);
      assert a == [a[0]] + a[1..] && b == [b[0]] + b[1..];
    }
  }

  /** A file's size never exceeds the total of a group that holds it. */
  lemma {:induction false} TotalAtLeastMember<P>(g: seq<P>, j: nat, stat: P -> Option<nat>)
    requires Sized(g, stat) && j < |g|
    ensures stat(g[j]).value <= Total(g, stat)
  {
    if j < |g| - 1 {
      TotalAtLeastMember(g[..|g| - 1], j, stat);
    }
  }

  /** A file larger than the maximum is never grouped with another file. */
  lemma OversizedFileIsAlone<P>(groups: seq<seq<P>>, items: seq<P>, stat: P -> Option<nat>, maxGroupSize: int,
                                k: nat, j: nat)
    requires IsGreedyGrouping(groups, items, stat, maxGroupSize)
    requires k < |groups| && j < |groups[k]|
    requires stat(groups[k][j]).value > maxGroupSize
    ensures groups[k] == [groups[k][j]]
  {
    TotalAtLeastMember(groups[k], j, stat);
  }

  /** A file whose size cannot be read is skipped; the others keep their order. */
  lemma {:induction false} KeptAppend<P>(a: seq<P>, b: seq<P>, stat: P -> Option<nat>)
    ensures Kept(a + b, stat) == Kept(a, stat) + Kept(b, stat)
    decreases |b|
  {
    if b == [] {
      assert a + b == a;
    } else {
      var n := |b| - 1;
      assert (a + b)[..|a + b| - 1] == a + b[..n];
      KeptAppend(a, b[..n], stat);
    }
  }

  /** The kept files are exactly the listed files whose size can be read. */
  lemma {:induction false} KeptMembers<P>(files: seq<P>, stat: P -> Option<nat>, x: P)
    ensures x in Kept(files, stat) <==> x in files && stat(x).Some?
  {
    if files != [] {
      var n := |files| - 1;
      KeptMembers(files[..n], stat, x);
      assert files == files[..n] + [files[n]];
    }
  }

  /** No readable file, no group: `group_files` returns `[]` for an empty list or when every `stat` fails. */
  lemma NoKeptFilesNoGroups<P>(files: seq<P>, stat: P -> Option<nat>, maxGroupSize: int, groups: seq<seq<P>>)
    requires forall i :: 0 <= i < |files| ==> stat(files[i]).None?
    requires IsGreedyGrouping(groups, Kept(files, stat), stat, maxGroupSize)
    ensures groups == []
  {
    if Kept(files, stat) != [] {
      var x := Kept(files, stat)[0];
      KeptMembers(files, stat, x);
    }
    NoItemsNoGroups(groups, stat, maxGroupSize);
  }

  /** Three files of size 5 with a maximum of 10: the first two share a group and the third is alone. */
  lemma ThreeFivesInTens<P>(f1: P, f2: P, f3: P, stat: P -> Option<nat>, groups: seq<seq<P>>)
    requires stat(f1) == Some(5) && stat(f2) == Some(5) && stat(f3) == Some(5)
    requires IsGreedyGrouping(groups, [f1, f2, f3], stat, 10)
    ensures groups == [[f1, f2], [f3]]
  {
    var expected := [[f1, f2], [f3]];
    assert [f1, f2][..1] == [f1] && [f1][..0] == [];
    assert Total([f1], stat) == 5;
    assert Total([f1, f2], stat) == 10;
    assert expected[1..] == [[f3]] && expected[1..][1..] == [];
    assert Flatten([[f3]]) == [f3] + Flatten([]);
    assert Flatten(expected) == [f1, f2] + [f3];
    assert [f1, f2] + [f3] == [f1, f2, f3];
    assert IsGreedyGrouping(expected, [f1, f2, f3], stat, 10);
    GreedyGroupingUnique(groups, expected, [f1, f2, f3], stat, 10);
  }
}
