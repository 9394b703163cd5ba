/** Chronological order of a reply's files: `chunks.sort(key=lambda p:
    p.stat().st_mtime)`. Python's list sort is stable, so files with the same
    modification time keep the order the listing gave them; names play no part. */
module Ordering {
  import opened Files

  /** Modification times never decrease along the sequence. */
  predicate SortedByMtime(s: seq<WavFile>)
  {
    forall i, j :: 0 <= i < j < |s| ==> s[i].mtime <= s[j].mtime
  }

  /** The files with modification time `t`, in the order they appear. */
  function WithMtime(s: seq<WavFile>, t: int): seq<WavFile>
  {
    if s == [] then [] else (if s[0].mtime == t then [s[0]] else []) + WithMtime(s[1..], t)
  }

  lemma {:induction false} WithMtimeAppend(a: seq<WavFile>, b: seq<WavFile>, t: int)
    ensures WithMtime(a + b, t) == WithMtime(a, t) + WithMtime(b, t)
  {
    if a == [] {
      assert a + b == b;
    } else {
      var head := if a[0].mtime == t then [a[0]] else [];
      assert (a + b)[0] == a[0] && (a + b)[1..] == a[1..] + b;
      assert WithMtime(a + b, t) == head + WithMtime(a[1..] + b, t);
      WithMtimeAppend(a[1..], b, t);
      assert WithMtime(a, t) == head + WithMtime(a[1..], t);
    }
  }

  /** Places `x` after every file of `s`, except the trailing run of files that
      are strictly newer than `x`: the step of a stable insertion sort. */
  function Insert(s: seq<WavFile>, x: WavFile): (r: seq<WavFile>)
    ensures |r| == |s| + 1
  {
    if s == [] || s[|s| - 1].mtime <= x.mtime then s + [x]
    else Insert(s[..|s| - 1], x) + [s[|s| - 1]]
  }

  /** The stable sort by modification time, as insertion of each file in turn. */
  function SortByMtime(s: seq<WavFile>): (r: seq<WavFile>)
    ensures |r| == |s|
  {
    if s == [] then [] else Insert(SortByMtime(s[..|s| - 1]), s[|s| - 1])
  }

  lemma WithMtimeSingle(x: WavFile, t: int)
    ensures WithMtime([x], t) == if x.mtime == t then [x] else []
  {
    assert [x][1..] == [];
  }

  /** Inserting adds exactly `x` to the files. */
  lemma {:induction false} InsertPermutes(s: seq<WavFile>, x: WavFile)
    ensures multiset(Insert(s, x)) == multiset(s) + multiset{x}
    decreases |s|
  {
    if s != [] && s[|s| - 1].mtime > x.mtime {
      var init, last := s[..|s| - 1], s[|s| - 1];
      assert s == init + [last];
      InsertPermutes(init, x);
    }
  }

  /** Inserting keeps the relative order of the files that share any one
      modification time, and puts `x` after those that share its own. */
  lemma {:induction false} InsertKeepsTies(s: seq<WavFile>, x: WavFile, t: int)
    ensures WithMtime(Insert(s, x), t) == WithMtime(s, t) + WithMtime([x], t)
    decreases |s|
  {
    if s == [] || s[|s| - 1].mtime <= x.mtime {
      WithMtimeAppend(s, [x], t);
    } else {
      var init, last := s[..|s| - 1], s[|s| - 1];
      assert s == init + [last];
      InsertKeepsTies(init, x, t);
      WithMtimeAppend(Insert(init, x), [last], t);
      WithMtimeAppend(init, [last], t);
      WithMtimeSingle(x, t);
      WithMtimeSingle(last, t);
      calc {
        WithMtime(Insert(s, x), t);
        WithMtime(Insert(init, x), t) + WithMtime([last], t);
        WithMtime(init, t) + WithMtime([x], t) + WithMtime([last], t);
        WithMtime(init, t) + WithMtime([last], t) + WithMtime([x], t);
        WithMtime(s, t) + WithMtime([x], t);
      }
    }
  }

  /** Inserting into a sorted sequence gives a sorted sequence. */
  lemma {:induction false} InsertSorted(s: seq<WavFile>, x: WavFile)
    requires SortedByMtime(s)
    ensures SortedByMtime(Insert(s, x))
    decreases |s|
  {
    if s != [] && s[|s| - 1].mtime > x.mtime {
      var init, last := s[..|s| - 1], s[|s| - 1];
      InsertSorted(init, x);
      var r := Insert(init, x);
      assert forall k :: 0 <= k < |r| ==> r[k].mtime <= last.mtime by {
        forall k | 0 <= k < |r| ensures r[k].mtime <= last.mtime {
          if k > 0 {
            assert r[k].mtime <= r[|r| - 1].mtime;
          }
          InsertLast(init, x);
        }
      }
    }
  }

  /** The last file after inserting is `x` or the last file before. */
  lemma {:induction false} InsertLast(s: seq<WavFile>, x: WavFile)
    ensures Insert(s, x)[|s|] == if s == [] || s[|s| - 1].mtime <= x.mtime then x else s[|s| - 1]
    ensures forall k :: 0 <= k <= |s| ==> Insert(s, x)[k] in multiset(s) + multiset{x}
    decreases |s|
  {
    InsertPermutes(s, x);
    var r := Insert(s, x);
    forall k | 0 <= k <= |s| ensures r[k] in multiset(s) + multiset{x} {
      assert r[k] in multiset(r);
    }
    if s != [] && s[|s| - 1].mtime > x.mtime {
      InsertLast(s[..|s| - 1], x);
    }
  }

  /** The result is ordered by modification time. */
  lemma {:induction false} SortByMtimeSorted(s: seq<WavFile>)
    ensures SortedByMtime(SortByMtime(s))
  {
    if s != [] {
      SortByMtimeSorted(s[..|s| - 1]);
      InsertSorted(SortByMtime(s[..|s| - 1]), s[|s| - 1]);
    }
  }

  /** The result holds the same files as the input, each as often: a permutation. */
  lemma {:induction false} SortByMtimePermutes(s: seq<WavFile>)
    ensures multiset(SortByMtime(s)) == multiset(s)
  {
    if s != [] {
      SortByMtimePermutes(s[..|s| - 1]);
      InsertPermutes(SortByMtime(s[..|s| - 1]), s[|s| - 1]);
      assert s == s[..|s| - 1] + [s[|s| - 1]];
    }
  }

  /** The sort is stable: for every modification time, the files that have it come
      out in the order they went in. */
  lemma {:induction false} SortByMtimeStable(s: seq<WavFile>, t: int)
    ensures WithMtime(SortByMtime(s), t) == WithMtime(s, t)
  {
    if s != [] {
      var init, last := s[..|s| - 1], s[|s| - 1];
      SortByMtimeStable(init, t);
      InsertKeepsTies(SortByMtime(init), last, t);
      assert s == init + [last];
      WithMtimeAppend(init, [last], t);
    }
  }

  /** An already ordered sequence is left as it is. */
  lemma {:induction false} SortByMtimeOfSorted(s: seq<WavFile>)
    requires SortedByMtime(s)
    ensures SortByMtime(s) == s
  {
    if s != [] {
      var init, last := s[..|s| - 1], s[|s| - 1];
      assert SortedByMtime(init);
      SortByMtimeOfSorted(init);
      assert s == init + [last];
    }
  }

  /** Sorting twice gives the same order as sorting once. */
  lemma SortByMtimeIdempotent(s: seq<WavFile>)
    ensures SortByMtime(SortByMtime(s)) == SortByMtime(s)
  {
    SortByMtimeSorted(s);
    SortByMtimeOfSorted(SortByMtime(s));
  }

  /** Where the insertion lands: `x` goes in at `j` when everything from `j` on is
      strictly newer than `x` and the file before `j`, if any, is not. */
  lemma {:induction false} InsertAt(s: seq<WavFile>, x: WavFile, j: nat)
    requires j <= |s|
    requires forall k :: j <= k < |s| ==> s[k].mtime > x.mtime
    requires j == 0 || s[j - 1].mtime <= x.mtime
    ensures Insert(s, x) == s[..j] + [x] + s[j..]
    decreases |s|
  {
    if j < |s| {
      var init := s[..|s| - 1];
      InsertAt(init, x, j);
      assert init[..j] == s[..j];
      assert init[j..] + [s[|s| - 1]] == s[j..];
    } else {
      assert s[..j] == s;
    }
  }

  /** Shifts the files before `i` that are strictly newer than `x` one place
      right, and returns the gap left where `x` belongs. */
  method MakeRoom(a: array<WavFile>, i: nat, x: WavFile) returns (j: nat)
    requires i < a.Length
    modifies a
    ensures j <= i
    ensures forall k :: 0 <= k < j ==> a[k] == old(a[k])
    ensures forall k :: j < k <= i ==> a[k] == old(a[k - 1])
    ensures forall k :: i < k < a.Length ==> a[k] == old(a[k])
    ensures forall k :: j <= k < i ==> old(a[k]).mtime > x.mtime
    ensures j == 0 || old(a[j - 1]).mtime <= x.mtime
  {
    j := i;
    while j > 0 && a[j - 1].mtime > x.mtime
      invariant 0 <= j <= i
      invariant forall k :: 0 <= k < j ==> a[k] == old(a[k])
      invariant forall k :: j < k <= i ==> a[k] == old(a[k - 1])
      invariant forall k :: i < k < a.Length ==> a[k] == old(a[k])
      invariant forall k :: j <= k < i ==> old(a[k]).mtime > x.mtime
    {
      a[j] := a[j - 1];
      j := j - 1;
    }
  }

  /** The array after `MakeRoom` and the write of `x` into the gap holds, up to
      `i`, exactly `Insert` of what was there before, and is unchanged after `i`. */
  lemma Placed(before: seq<WavFile>, after: seq<WavFile>, i: nat, j: nat)
    requires j <= i < |before| == |after|
    requires forall k :: 0 <= k < j ==> after[k] == before[k]
    requires after[j] == before[i]
    requires forall k :: j < k <= i ==> after[k] == before[k - 1]
    requires forall k :: j <= k < i ==> before[k].mtime > before[i].mtime
    requires j == 0 || before[j - 1].mtime <= before[i].mtime
    ensures after[..i + 1] == Insert(before[..i], before[i])
  {
    var sorted := before[..i];
    assert forall k :: j <= k < |sorted| ==> sorted[k] == before[k];
    InsertAt(sorted, before[i], j);
    assert sorted[..j] == before[..j] && sorted[j..] == before[j..i];
    Shifted(before, after, i, j);
  }

  /** The front of the array after the shift and the write, as a splice. */
  lemma Shifted(before: seq<WavFile>, after: seq<WavFile>, i: nat, j: nat)
    requires j <= i < |before| == |after|
    requires forall k :: 0 <= k < j ==> after[k] == before[k]
    requires after[j] == before[i]
    requires forall k :: j < k <= i ==> after[k] == before[k - 1]
    ensures after[..i + 1] == before[..j] + [before[i]] + before[j..i]
  {
    var r := before[..j] + [before[i]] + before[j..i];
    forall k | 0 <= k < i + 1 ensures after[k] == r[k] {
      if k < j {
        assert r[k] == before[k];
      } else if k == j {
        assert r[k] == before[i];
      } else {
        assert r[k] == before[j..i][k - j - 1] == before[k - 1];
      }
    }
  }

  /** One step of the in-place insertion sort: moves `a[i]` back past the
      strictly newer files before it. */
  method InsertNext(a: array<WavFile>, i: nat)
    requires 0 < i < a.Length
    modifies a
    ensures a[..i + 1] == Insert(old(a[..i]), old(a[i]))
    ensures forall k :: i < k < a.Length ==> a[k] == old(a[k])
  {
    ghost var before := a[..];
    var x := a[i];
    var j := MakeRoom(a, i, x);
    a[j] := x;
    Placed(before, a[..], i, j);
    assert before[..i] == old(a[..i]);
  }

  /** Sorting one more element of a sequence inserts it into the sorted prefix. */
  lemma SortByMtimeStep(s: seq<WavFile>, i: nat)
    requires i < |s|
    ensures SortByMtime(s[..i + 1]) == Insert(SortByMtime(s[..i]), s[i])
  {
    assert s[..i + 1][..i] == s[..i];
  }

  /** Sorts the files in place, by insertion, exactly as `SortByMtime` orders them. */
  method SortChunks(a: array<WavFile>)
    modifies a
    ensures a[..] == SortByMtime(old(a[..]))
  {
    ghost var input := a[..];
    if a.Length == 0 {
      return;
    }
    var i := 1;
    assert input[..1] == [input[0]];
    assert SortByMtime(input[..1]) == [input[0]];
    while i < a.Length
      invariant 1 <= i <= a.Length
      invariant a[..i] == SortByMtime(input[..i])
      invariant forall k :: i <= k < a.Length ==> a[k] == input[k]
    {
      InsertNext(a, i);
      SortByMtimeStep(input, i);
      i := i + 1;
    }
    assert input[..a.Length] == input;
  }
}
