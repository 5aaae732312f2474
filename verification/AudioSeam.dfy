/**
 What `missing` answers for a skip that falls inside a millisecond: that millisecond
 matches nowhere and is a seam, which has to be seen to sit on the cut.
 */
module AudioSeam {
  import opened Common
  import opened Audio
  import opened AudioWhole
  import opened AudioSound
  import opened AudioRead
  import opened AudioSplice
  import opened AudioLosses
  import opened AudioCrackle

  /** The sound jumps ahead by `g` samples after `k`, inside millisecond `c`, and at least
      one whole millisecond follows that one. */
  datatype Skip = Skip(c: nat, k: nat, g: nat)

  ghost predicate Jumps(t: Tape, skip: Skip) {
    && Samples(skip.c) < skip.k < Samples(skip.c) + BLOCK && skip.g > SKIP
    && skip.k + skip.g <= |t.reference|
    && t.recorded == t.reference[..skip.k] + t.reference[skip.k + skip.g..]
    && Samples(skip.c) + BLOCK + BLOCK <= |t.recorded|
  }

  function ShiftAt(skip: Skip, i: nat): int { if i < skip.c then 0 else skip.g }

  lemma SeamLies(t: Tape, skip: Skip, i: nat)
    requires Jumps(t, skip) && i < t.Count()
    ensures |t.recorded| + skip.g == |t.reference| && skip.c + 1 < t.Count()
    ensures i <= skip.c ==> t.At(i) == Samples(i)
    ensures i > skip.c ==> t.At(i) >= skip.k
  {
  }

  lemma WholeIs(t: Tape, skip: Skip, i: nat)
    requires Jumps(t, skip) && i < t.Count() && i != skip.c
    ensures var (at, q) := (t.At(i), t.At(i) + ShiftAt(skip, i));
            && q + BLOCK <= |t.reference| && |t.Block(at)| == BLOCK && t.Block(at) == t.There(q)
            && (LoudAt(t, i) ==> t.Matches(t.Block(at), q))
  {
    SeamLies(t, skip, i);
    var at, q := t.At(i), t.At(i) + ShiftAt(skip, i);
    var a, b := t.recorded[at..at + BLOCK], t.reference[q..q + BLOCK];
    forall j | 0 <= j < BLOCK ensures a[j] == b[j] {
      assert t.recorded[at + j] == if at + j < skip.k then t.reference[at + j] else t.reference[at + j + skip.g];
    }
    assert a == b;
    Identical(t, at, q);
  }

  lemma WholeReadsTruly(t: Tape, skip: Skip, i: nat)
    requires Jumps(t, skip) && i < t.Count() && i != skip.c
    ensures !t.Silenced(t.At(i), ShiftAt(skip, i))
  {
    WholeIs(t, skip, i);
    var here := t.Block(t.At(i));
    if Silent(here) {
      NothingHeard(here, BLOCK);
    }
  }

  // ---------------------------------------------------------------------- the walk

  /** Why a millisecond is not looked for any further: it matches nowhere; or it has silence
      at an edge and is not the reference's here; or it begins as the reference does here,
      for long and loud enough to tell, and is the reference's neither here nor nearby nor
      anywhere before. */
  ghost predicate NotPlaced(t: Tape, block: seq<real>, at: nat) {
    && |block| == BLOCK
    && (|| (forall q :: !t.Matches(block, q))
        || (!t.Matches(block, at) && (Silent(block[..4]) || Silent(block[44..])))
        || ((forall q :: q <= at + DRIFT ==> !t.Matches(block, q)) && exists n :: BeginsAs(t, block, at, n)))
  }

  /** The first 4n samples are the reference's from `at` on, and as loud as 44 have to be. */
  ghost predicate BeginsAs(t: Tape, block: seq<real>, at: nat, n: nat) {
    && 2 <= n <= 11 && |block| == BLOCK && at + BLOCK <= |t.reference|
    && block[..4 * n] == t.reference[at..at + 4 * n] && Energy(block[..4 * n]) >= 0.000044
  }

  lemma {:induction false} EnergyGrows(s: seq<real>, a: nat, b: nat)
    requires a <= b <= |s|
    ensures EnergyTo(s[..a], a) <= EnergyTo(s[..b], b)
    decreases b
  {
    if a < b {
      EnergyGrows(s, a, b - 1);
      EnergyPrefix(s[..b], s[..b - 1], b - 1);
    }
  }

  lemma {:induction false} EnergyPrefix(s: seq<real>, r: seq<real>, n: nat)
    requires n <= |s| && n <= |r| && forall i :: 0 <= i < n ==> s[i] == r[i]
    ensures EnergyTo(s, n) == EnergyTo(r, n)
  {
    if n > 0 {
      EnergyPrefix(s, r, n - 1);
    }
  }

  /** Such a beginning is seen, whatever comes after it. */
  lemma {:induction false} BeginsIsSeen(t: Tape, block: seq<real>, at: nat, n: nat, m: nat)
    requires BeginsAs(t, block, at, n) && n <= m <= 11
    ensures t.StartsHere(block, at, 4 * m)
    decreases m
  {
    var head, there := block[..4 * m], t.Padded(at, at + 4 * m);
    assert Energy(head) >= FloorOf(4 * m) by { EnergyGrows(block, 4 * n, 4 * m); }
    if n == m {
      forall j | 0 <= j < 4 * m ensures head[j] == there[j] {
        assert head[j] == t.reference[at..at + 4 * n][j] == t.Sample(at + j);
      }
      assert head == there;
      NoDifference(head, 4 * m);
    } else {
      BeginsIsSeen(t, block, at, n, m - 1);
    }
  }

  lemma NotFoundNear(t: Tape, block: seq<real>, at: nat, held: nat)
    requires forall q :: q <= at + DRIFT ==> !t.Matches(block, q)
    ensures t.Nearby(block, at, 0, held).None?
  {
    FoundWithin(t, block, at, 0 - DRIFT, 0 + DRIFT + 1);
    FoundWithin(t, block, at, 0 - DRIFT - held, 0 - DRIFT);
  }

  lemma FoundWithin(t: Tape, block: seq<real>, at: nat, start: int, stop: int)
    ensures var found := t.Find(block, at, start, stop); found.Some? ==> found.value < stop && t.Matches(block, at + found.value)
  {
    FoundMatches(t, block, at, start, stop);
    BestInRange(t, block, at, Max(start, 0 - at), Min(stop, |t.reference| - BLOCK - at + 1));
  }

  lemma NotPlacedIs(t: Tape, block: seq<real>, at: nat, held: nat)
    requires NotPlaced(t, block, at)
    ensures !t.Matches(block, at) && t.Place(block, at, 0, held).None?
  {
    if forall q :: !t.Matches(block, q) {
      NowherePlaced(t, block, at, 0, held);
    } else if !(Silent(block[..4]) || Silent(block[44..])) {
      NotFoundNear(t, block, at, held);
      var n: nat :| BeginsAs(t, block, at, n);
      BeginsIsSeen(t, block, at, n, 11);
    }
  }

  /** The millisecond the skip is in is not looked for, and the first audible one after it,
      the f-th, matches only where it belongs. */
  ghost predicate Audibly(t: Tape, skip: Skip, f: nat) {
    && Jumps(t, skip) && skip.c < f < t.Count() && LoudAt(t, f) && (forall i :: skip.c < i < f ==> !LoudAt(t, i))
    && Placeable(t, t.Block(t.At(f)), t.At(f), skip.g)
    && LoudAt(t, skip.c) && NotPlaced(t, t.Block(t.At(skip.c)), t.At(skip.c))
  }

  function SeamMark(t: Tape, skip: Skip, i: nat): Mark
    requires i < t.Count()
  {
    if i == skip.c then Mark(Seam, 0, t.At(i))
    else if LoudAt(t, i) then Mark(Matched, ShiftAt(skip, i), t.At(i))
    else Mark(Faint, 0, t.At(i))
  }

  ghost predicate SeamWalk(t: Tape, skip: Skip, f: nat, w: Walk, j: nat) {
    && j <= t.Count() && w.Walk? && |w.marks| == j && w.shift == (if j > f then skip.g else 0)
    && forall i :: 0 <= i < j ==> w.marks[i] == SeamMark(t, skip, i)
  }

  lemma SeamMarked(t: Tape, skip: Skip, f: nat, marks: seq<Mark>, held: nat)
    requires Audibly(t, skip, f) && |marks| == skip.c && forall i :: 0 <= i < |marks| ==> marks[i] == SeamMark(t, skip, i)
    ensures t.Marked(marks, 0, held, t.At(skip.c)) == Some(SeamMark(t, skip, skip.c))
  {
    var at := t.At(skip.c);
    NotPlacedIs(t, t.Block(at), at, held);
    assert !t.Matches(t.Block(at), at + 0);
  }

  lemma GoesOnMarked(t: Tape, skip: Skip, f: nat, marks: seq<Mark>, held: nat)
    requires Audibly(t, skip, f)
    ensures t.Marked(marks, 0, held, t.At(f)) == Some(SeamMark(t, skip, f))
  {
    assert t.At(f) + skip.g + BLOCK <= |t.reference| by { WholeIs(t, skip, f); }
    MarkedAtTurn(t, marks, held, t.At(f), skip.g);
  }

  lemma WholeMarked(t: Tape, skip: Skip, marks: seq<Mark>, shift: int, held: nat, j: nat)
    requires Jumps(t, skip) && j < t.Count() && j != skip.c && (LoudAt(t, j) ==> shift == ShiftAt(skip, j))
    ensures t.Marked(marks, shift, held, t.At(j)) == Some(SeamMark(t, skip, j))
  {
    if LoudAt(t, j) {
      assert t.Matches(t.Block(t.At(j)), t.At(j) + shift) by { WholeIs(t, skip, j); }
    }
    MarkedHere(t, marks, shift, held, t.At(j));
  }

  lemma ShiftFits(t: Tape, skip: Skip, f: nat, j: nat)
    requires Audibly(t, skip, f) && j < t.Count() && j != skip.c && j != f && LoudAt(t, j)
    ensures (if j > f then skip.g else 0) == ShiftAt(skip, j)
  {
  }

  lemma SeamStep(t: Tape, skip: Skip, f: nat, w: Walk, j: nat)
    requires Audibly(t, skip, f) && SeamWalk(t, skip, f, w, j) && j < t.Count()
    ensures SeamWalk(t, skip, f, t.Step(w, t.At(j)), j + 1)
  {
    assert t.Marked(w.marks, w.shift, HeldNow(w), t.At(j)) == Some(SeamMark(t, skip, j)) by {
      if j == skip.c {
        SeamMarked(t, skip, f, w.marks, HeldNow(w));
      } else if j == f {
        GoesOnMarked(t, skip, f, w.marks, HeldNow(w));
      } else {
        if LoudAt(t, j) {
          ShiftFits(t, skip, f, j);
        }
        WholeMarked(t, skip, w.marks, w.shift, HeldNow(w), j);
      }
    }
    SeamAdds(t, skip, f, w, j);
  }

  lemma SeamAdds(t: Tape, skip: Skip, f: nat, w: Walk, j: nat)
    requires SeamWalk(t, skip, f, w, j) && j < t.Count() && f < t.Count() && skip.c < f && LoudAt(t, f)
    requires forall i :: skip.c < i < f ==> !LoudAt(t, i)
    requires t.Marked(w.marks, w.shift, HeldNow(w), t.At(j)) == Some(SeamMark(t, skip, j))
    ensures SeamWalk(t, skip, f, t.Step(w, t.At(j)), j + 1)
  {
    StepAddsMark(t, w, t.At(j), SeamMark(t, skip, j));
  }

  ghost predicate SeamTo(t: Tape, skip: Skip, f: nat, j: nat) { j <= t.Count() && SeamWalk(t, skip, f, t.Walked(j), j) }

  lemma SeamOne(t: Tape, skip: Skip, f: nat, j: nat)
    requires Audibly(t, skip, f) && j < t.Count() && SeamTo(t, skip, f, j)
    ensures SeamTo(t, skip, f, j + 1)
  {
    var w, r := t.Walked(j), t.Walked(j + 1);
    assert r == t.Step(w, t.At(j)) by { WalkedNext(t, j); }
    SeamStep(t, skip, f, w, j);
  }

  lemma {:induction false} SeamOn(t: Tape, skip: Skip, f: nat, j: nat)
    requires j <= t.Count() && SeamTo(t, skip, f, 0)
    requires forall i: nat :: i < t.Count() && SeamTo(t, skip, f, i) ==> SeamTo(t, skip, f, i + 1)
    ensures SeamTo(t, skip, f, j)
    decreases j
  {
    if j > 0 {
      SeamOn(t, skip, f, j - 1);
    }
  }

  lemma SeamWalked(t: Tape, skip: Skip, f: nat)
    requires Audibly(t, skip, f)
    ensures SeamWalk(t, skip, f, t.Walked(t.Count()), t.Count())
  {
    forall i: nat | i < t.Count() && SeamTo(t, skip, f, i) ensures SeamTo(t, skip, f, i + 1) {
      SeamOne(t, skip, f, i);
    }
    SeamOn(t, skip, f, t.Count());
  }

  // ----------------------------------------------------------------- reading it

  /** Matches before `c` are in place and those from `f` on shifted by `g`; between the two
      there is the seam, and nothing that matches. */
  ghost predicate Parted(marks: seq<Mark>, c: nat, f: nat, g: int) {
    && c < f < |marks| && marks[c].kind == Seam && marks[f].kind == Matched
    && forall i :: 0 <= i < |marks| && i != c ==>
         && (marks[i].kind == Matched || marks[i].kind == Faint)
         && (marks[i].kind == Matched ==> (i < c && marks[i].shift == 0) || (i >= f && marks[i].shift == g))
  }

  lemma {:induction false} PartedBefore(marks: seq<Mark>, c: nat, f: nat, g: int, index: nat)
    requires Parted(marks, c, f, g) && index <= |marks|
    ensures ShiftBefore(marks, index) == if index > f then g else 0
    decreases index
  {
    if index > 0 {
      PartedBefore(marks, c, f, g, index - 1);
    }
  }

  lemma {:induction false} PartedAfter(marks: seq<Mark>, c: nat, f: nat, g: int, index: nat)
    requires Parted(marks, c, f, g) && c <= index
    ensures ShiftAfter(marks, index).Some? ==> ShiftAfter(marks, index).value == g
    ensures index <= f ==> ShiftAfter(marks, index) == Some(g)
    decreases |marks| - index
  {
    if index < |marks| {
      PartedAfter(marks, c, f, g, index + 1);
    }
  }

  ghost predicate SeamMarks(t: Tape, skip: Skip, f: nat, marks: seq<Mark>) {
    Audibly(t, skip, f) && |marks| == t.Count() && forall i :: 0 <= i < |marks| ==> marks[i] == SeamMark(t, skip, i)
  }

  lemma SeamIsParted(t: Tape, skip: Skip, f: nat, marks: seq<Mark>)
    requires SeamMarks(t, skip, f, marks)
    ensures Parted(marks, skip.c, f, skip.g)
  {
  }

  /** How every mark but the seam has to come out: arrived. */
  ghost predicate Arrives(t: Tape, mark: Mark) {
    (mark.kind == Matched || mark.kind == Quiet) && mark.at + mark.shift < |t.reference|
  }

  lemma ReadArrives(t: Tape, skip: Skip, f: nat, marks: seq<Mark>, i: nat, shift: int)
    requires SeamMarks(t, skip, f, marks) && i < |marks| && i != skip.c && (shift == 0 || shift == skip.g)
    requires shift == ShiftAt(skip, i) || (i < skip.c && !t.Silenced(marks[i].at, shift))
    ensures Arrives(t, t.Read(marks[i], shift))
  {
    WholeReadsTruly(t, skip, i);
    WholeIs(t, skip, i);
    SeamLies(t, skip, i);
  }

  /** A faint stretch that ends at the seam. */
  lemma UpToSeam(t: Tape, skip: Skip, f: nat, marks: seq<Mark>, first: nat, j: nat)
    requires SeamMarks(t, skip, f, marks) && first <= j < skip.c
    ensures Arrives(t, t.Stretch(marks, first, skip.c)[j - first])
  {
    var c, g := skip.c, skip.g;
    assert ShiftBefore(marks, first) == 0 && ShiftAfter(marks, c) == Some(g) by {
      SeamIsParted(t, skip, f, marks);
      PartedBefore(marks, c, f, g, first);
      PartedAfter(marks, c, f, g, c);
    }
    var s := t.Split(marks, first, c, 0, g);
    var shift := if j - first < s then 0 else g;
    assert t.Stretch(marks, first, c)[j - first] == t.Read(marks[j], shift) by { StretchIs(t, marks, first, c, j, 0, g); }
    assert shift == 0 || !t.Silenced(marks[j].at, shift) by {
      forall i | first <= i < c ensures !t.Silenced(marks[i].at, 0) {
        WholeReadsTruly(t, skip, i);
      }
      SplitFits(t, marks, first, c, c, c, 0, g);
    }
    ReadArrives(t, skip, f, marks, j, shift);
  }

  /** One that begins after the seam. */
  lemma FromSeam(t: Tape, skip: Skip, f: nat, marks: seq<Mark>, first: nat, end: nat, j: nat)
    requires SeamMarks(t, skip, f, marks) && skip.c < first <= j < end <= |marks| && (first > f || end == f)
    ensures Arrives(t, t.Stretch(marks, first, end)[j - first])
  {
    var g := skip.g as int;
    var early := if first > f then g else 0;
    assert ShiftBefore(marks, first) == early && (var after := ShiftAfter(marks, end); g == if after.Some? then after.value else early) by {
      SeamIsParted(t, skip, f, marks);
      SidesAfter(marks, skip.c, f, g, first, end);
    }
    assert t.Split(marks, first, end, early, g) == 0 by { SplitAtOnce(t, skip, f, marks, first, end, early); }
    assert t.Stretch(marks, first, end)[j - first] == t.Read(marks[j], g) by { StretchIs(t, marks, first, end, j, early, g); }
    ReadArrives(t, skip, f, marks, j, g);
  }

  lemma SidesAfter(marks: seq<Mark>, c: nat, f: nat, g: int, first: nat, end: nat)
    requires Parted(marks, c, f, g) && c < first < end <= |marks| && (first > f || end == f)
    ensures var early := if first > f then g else 0;
            ShiftBefore(marks, first) == early && var after := ShiftAfter(marks, end); g == if after.Some? then after.value else early
  {
    PartedBefore(marks, c, f, g, first);
    PartedAfter(marks, c, f, g, end);
  }

  lemma SplitAtOnce(t: Tape, skip: Skip, f: nat, marks: seq<Mark>, first: nat, end: nat, early: int)
    requires SeamMarks(t, skip, f, marks) && skip.c < first < end <= |marks|
    ensures t.Split(marks, first, end, early, skip.g) == 0
  {
    forall i | first <= i < end ensures !t.Silenced(marks[i].at, skip.g) {
      WholeReadsTruly(t, skip, i);
    }
    SplitFits(t, marks, first, first, first, end, early, skip.g);
  }

  /** One with a match after it, before the seam. */
  lemma WellBefore(t: Tape, skip: Skip, f: nat, marks: seq<Mark>, first: nat, end: nat, j: nat)
    requires SeamMarks(t, skip, f, marks) && first <= j < end < skip.c && marks[end].kind == Matched
    ensures Arrives(t, t.Stretch(marks, first, end)[j - first])
  {
    assert t.Stretch(marks, first, end)[j - first] == t.Read(marks[j], 0) by {
      SeamIsParted(t, skip, f, marks);
      PartedBefore(marks, skip.c, f, skip.g, first);
      StretchIs(t, marks, first, end, j, 0, 0);
    }
    ReadArrives(t, skip, f, marks, j, 0);
  }

  lemma SeamSides(marks: seq<Mark>, c: nat, f: nat, g: int, first: nat, end: nat)
    requires Parted(marks, c, f, g) && first < |marks| && marks[first].kind == Faint && end == RunEnd(marks, first, Faint)
    ensures (end < c && marks[end].kind == Matched) || end == c || (c < first && (first > f || end == f))
  {
  }

  lemma ReadInArrives(t: Tape, skip: Skip, f: nat, marks: seq<Mark>, start: nat, j: nat, mark: Mark)
    requires SeamMarks(t, skip, f, marks) && j < |marks| && j != skip.c && ReadIn(t, marks, start, j, mark)
    ensures Arrives(t, mark)
  {
    if marks[j].kind == Faint {
      var end := RunEnd(marks, start, Faint);
      assert (end < skip.c && marks[end].kind == Matched) || end == skip.c || (skip.c < start && (start > f || end == f)) by {
        SeamIsParted(t, skip, f, marks);
        SeamSides(marks, skip.c, f, skip.g, start, end);
      }
      if end < skip.c {
        WellBefore(t, skip, f, marks, start, end, j);
      } else if end == skip.c {
        UpToSeam(t, skip, f, marks, start, j);
      } else {
        FromSeam(t, skip, f, marks, start, end, j);
      }
    } else {
      WholeIs(t, skip, j);
    }
  }

  /** Read to the end: one seam, and everything else arrived. */
  ghost predicate SeamRead(t: Tape, skip: Skip, f: nat, read: seq<Mark>) {
    && skip.c < f < |read| == t.Count() && read[skip.c].kind == Seam
    && (forall i: nat :: i < |read| && i != skip.c ==> Arrives(t, read[i]))
    && (forall i: nat :: i < |read| && read[i].kind == Matched ==> read[i].shift == if i < skip.c then 0 else skip.g)
    && read[f].kind == Matched
  }

  lemma SeamReadAt(t: Tape, skip: Skip, f: nat, marks: seq<Mark>, j: nat, mark: Mark)
    requires SeamMarks(t, skip, f, marks) && j < |marks| && ReadSomewhere(t, marks, j, mark)
    ensures j != skip.c ==> Arrives(t, mark)
    ensures marks[j].kind != Faint ==> mark == marks[j]
    ensures marks[j].kind == Faint ==> mark.kind != Matched
  {
    var start: nat :| ReadIn(t, marks, start, j, mark);
    if j != skip.c {
      ReadInArrives(t, skip, f, marks, start, j, mark);
    }
    ReadKeeps(t, marks, start, j, mark);
  }

  /** A faint mark is never read as a match, and every other mark stays. */
  lemma ReadKeeps(t: Tape, marks: seq<Mark>, start: nat, j: nat, mark: Mark)
    requires j < |marks| && ReadIn(t, marks, start, j, mark)
    ensures marks[j].kind != Faint ==> mark == marks[j]
    ensures marks[j].kind == Faint ==> mark.kind == Lost || mark.kind == Quiet
  {
    if marks[j].kind == Faint {
      var end := RunEnd(marks, start, Faint);
      var early, after := ShiftBefore(marks, start), ShiftAfter(marks, end);
      StretchIs(t, marks, start, end, j, early, if after.Some? then after.value else early);
    }
  }

  lemma SeamReads(t: Tape, skip: Skip, f: nat, marks: seq<Mark>, read: seq<Mark>)
    requires SeamMarks(t, skip, f, marks) && AllRead(t, marks, read)
    ensures SeamRead(t, skip, f, read)
  {
    forall j: nat | j < |read|
      ensures j != skip.c ==> Arrives(t, read[j])
      ensures read[j].kind == Matched ==> read[j].shift == if j < skip.c then 0 else skip.g
      ensures marks[j].kind != Faint ==> read[j] == marks[j]
    {
      SeamReadAt(t, skip, f, marks, j, read[j]);
      assert marks[j] == SeamMark(t, skip, j);
    }
    assert marks[f] == SeamMark(t, skip, f) && marks[skip.c] == SeamMark(t, skip, skip.c);
  }

  // ------------------------------------------------------------ what it amounts to

  lemma {:induction false} SeamArrived(t: Tape, skip: Skip, f: nat, read: seq<Mark>, m: nat)
    requires SeamRead(t, skip, f, read) && m <= |read|
    ensures t.Arrived(read[..m]) == if m > skip.c then m - 1 else m
    decreases m
  {
    if m > 0 {
      SeamArrived(t, skip, f, read, m - 1);
      assert read[..m][..m - 1] == read[..m - 1] && read[..m][m - 1] == read[m - 1];
    }
  }

  lemma {:induction false} JumpBefore(t: Tape, skip: Skip, f: nat, read: seq<Mark>, index: nat)
    requires SeamRead(t, skip, f, read) && index <= skip.c
    ensures ShiftBefore(read, index) == 0
    decreases index
  {
    if index > 0 {
      JumpBefore(t, skip, f, read, index - 1);
    }
  }

  lemma {:induction false} JumpAfter(t: Tape, skip: Skip, f: nat, read: seq<Mark>, index: nat)
    requires SeamRead(t, skip, f, read) && skip.c < index <= f
    ensures ShiftAfter(read, index) == Some(skip.g)
    decreases f - index
  {
    if index < f {
      JumpAfter(t, skip, f, read, index + 1);
    }
  }

  lemma {:induction false} SeamFits(t: Tape, skip: Skip, f: nat, read: seq<Mark>, first: nat)
    requires SeamRead(t, skip, f, read) && skip.g > SKIP && first <= |read|
    ensures t.SeamsFit(read, first, false)
    decreases |read| - first
  {
    if first < |read| {
      SeamFits(t, skip, f, read, first + 1);
      if first == skip.c {
        assert RunEnd(read, first, Seam) == first + 1;
        JumpBefore(t, skip, f, read, first);
        JumpAfter(t, skip, f, read, first + 1);
      }
    }
  }

  lemma {:induction false} NeverBack(marks: seq<Mark>, c: nat, f: nat, g: nat, m: nat)
    requires Parted(marks, c, f, g) && m <= |marks|
    ensures var shifts := Shifts(marks[..m]);
            && Paused(shifts) == 0 && (m > f ==> shifts != [])
            && (shifts != [] ==> shifts[|shifts| - 1] == 0 || (m > f && shifts[|shifts| - 1] == g))
    decreases m
  {
    if m > 0 {
      NeverBack(marks, c, f, g, m - 1);
      assert marks[..m][..m - 1] == marks[..m - 1] && marks[..m][m - 1] == marks[m - 1];
      var before := Shifts(marks[..m - 1]);
      if marks[m - 1].kind == Matched {
        assert (before + [marks[m - 1].shift])[..|before|] == before;
      }
    }
  }

  lemma SeamTold(t: Tape, skip: Skip, f: nat, w: Walk, read: seq<Mark>)
    requires Audibly(t, skip, f) && SeamWalk(t, skip, f, w, t.Count()) && AllRead(t, w.marks, read)
    ensures SeamRead(t, skip, f, read) && Shifts(w.marks) != [] && Paused(Shifts(w.marks)) == 0 && !t.TailLost(w.shift)
  {
    SeamReads(t, skip, f, w.marks, read);
    assert Shifts(w.marks) != [] && Paused(Shifts(w.marks)) == 0 by {
      SeamIsParted(t, skip, f, w.marks);
      NeverBack(w.marks, skip.c, f, skip.g, |w.marks|);
      assert w.marks[..|w.marks|] == w.marks;
    }
    SeamLies(t, skip, 0);
    TailArrived(t, w.shift);
  }

  lemma SeamShown(t: Tape, skip: Skip, f: nat) returns (read: seq<Mark>, shifts: seq<int>)
    requires Audibly(t, skip, f)
    ensures SeamRead(t, skip, f, read) && shifts != [] && Paused(shifts) == 0
    ensures t.Missing() == t.Verdict(read, shifts, false)
  {
    var w := t.Walked(t.Count());
    assert SeamWalk(t, skip, f, w, t.Count()) by { SeamWalked(t, skip, f); }
    read, shifts := t.Resolved(w.marks), Shifts(w.marks);
    assert AllRead(t, w.marks, read) by { ResolvedReads(t, w.marks, read); }
    SeamTold(t, skip, f, w, read);
  }

  lemma SeamAnswer(t: Tape, skip: Skip, f: nat, read: seq<Mark>, shifts: seq<int>, answer: Option<int>)
    requires Jumps(t, skip) && SeamRead(t, skip, f, read) && shifts != [] && Paused(shifts) == 0
    requires answer == t.Verdict(read, shifts, false)
    ensures answer == Some(|t.reference| - Samples(t.Count() - 1))
    ensures skip.g < |t.reference| - Samples(t.Count() - 1) <= skip.g + BLOCK
  {
    assert t.SeamsFit(read, 0, false) by { SeamFits(t, skip, f, read, 0); }
    assert t.Arrived(read) == t.Count() - 1 by {
      SeamArrived(t, skip, f, read, |read|);
      assert read[..|read|] == read;
    }
    assert skip.g < |t.reference| - Samples(t.Count() - 1) <= skip.g + BLOCK by {
      SeamLies(t, skip, 0);
      CountFits(t);
    }
    assert Damaged(read);
  }

  /** A skip inside a millisecond is missing what was skipped and that millisecond, to
      within the last, overlapping one: more than was skipped, by no more than a millisecond. */
  lemma SkipInsideIsMissed(t: Tape, skip: Skip, f: nat)
    requires Audibly(t, skip, f)
    ensures t.Missing() == Some(|t.reference| - Samples(t.Count() - 1))
    ensures skip.g < |t.reference| - Samples(t.Count() - 1) <= skip.g + BLOCK
  {
    var read, shifts := SeamShown(t, skip, f);
    SeamAnswer(t, skip, f, read, shifts, t.Missing());
  }
}
