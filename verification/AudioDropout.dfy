/**
 What `missing` answers when silence takes the place of sound from inside one
 millisecond to inside another: both are seams, and each has to be seen to sit where
 the silence begins or ends.
 */
module AudioDropout {
  import opened Common
  import opened Audio
  import opened AudioWhole
  import opened AudioSound
  import opened AudioRead
  import opened AudioSplice
  import opened AudioLosses
  import opened AudioCrackle
  import opened AudioSeam

  /** Silence from sample `k` up to `e`: it begins inside millisecond `b`, and ends inside
      millisecond `d`, with at least one whole millisecond between the two. */
  datatype Dropout = Dropout(b: nat, k: nat, d: nat, e: nat)

  /** At least four samples of each of the two milliseconds are silenced, and some are not. */
  predicate Inside(drop: Dropout) {
    && drop.b + 1 < drop.d
    && Samples(drop.b) < drop.k <= Samples(drop.b) + 44
    && Samples(drop.d) + 4 <= drop.e < Samples(drop.d) + BLOCK
  }

  ghost predicate Drops(t: Tape, drop: Dropout) {
    && Inside(drop) && |t.recorded| == |t.reference| && |t.reference| % BLOCK == 0
    && Samples(drop.d) + BLOCK <= |t.reference|
    && t.recorded == t.reference[..drop.k] + Silence(drop.e - drop.k) + t.reference[drop.e..]
  }

  lemma DropSample(t: Tape, drop: Dropout, j: nat)
    requires Drops(t, drop) && j < |t.recorded|
    ensures t.recorded[j] == if drop.k <= j < drop.e then 0.0 else t.reference[j]
  {
    var a, s, c := t.reference[..drop.k], Silence(drop.e - drop.k), t.reference[drop.e..];
    assert t.recorded[j] == if j < |a| then a[j] else if j < |a| + |s| then s[j - |a|] else c[j - |a| - |s|];
  }

  lemma DropStarts(t: Tape, drop: Dropout, i: nat)
    requires Drops(t, drop)
    ensures drop.d < t.Count() && Samples(t.Count()) == |t.recorded|
    ensures i < t.Count() ==> t.At(i) == Samples(i) && Samples(i) + BLOCK <= |t.recorded|
  {
  }

  predicate Within(drop: Dropout, i: nat) { drop.b < i < drop.d }

  predicate AtEdge(drop: Dropout, i: nat) { i == drop.b || i == drop.d }

  lemma OutsideDrop(t: Tape, drop: Dropout, i: nat)
    requires Drops(t, drop) && i < t.Count() && !Within(drop, i) && !AtEdge(drop, i)
    ensures var at := Samples(i);
            && t.At(i) == at && |t.Block(at)| == BLOCK && t.Block(at) == t.There(at)
            && (Energy(t.Block(at)) >= FLOOR ==> t.Matches(t.Block(at), at))
  {
    DropStarts(t, drop, i);
    var at := Samples(i);
    var a, b := t.recorded[at..at + BLOCK], t.reference[at..at + BLOCK];
    forall j | 0 <= j < BLOCK ensures a[j] == b[j] {
      DropSample(t, drop, at + j);
    }
    assert a == b;
    Identical(t, at, at);
  }

  lemma WithinDrop(t: Tape, drop: Dropout, i: nat)
    requires Drops(t, drop) && i < t.Count() && Within(drop, i)
    ensures t.At(i) == Samples(i) && Silent(t.Block(Samples(i))) && Energy(t.Block(Samples(i))) < FLOOR
  {
    DropStarts(t, drop, i);
    var block := t.Block(Samples(i));
    forall j | 0 <= j < |block| ensures block[j] == 0.0 {
      DropSample(t, drop, Samples(i) + j);
    }
    NoEnergy(block, |block|);
  }

  /** One of the two milliseconds at the edges: which of its samples are silence, and that
      the others are the reference's. */
  lemma EdgeIs(t: Tape, drop: Dropout, i: nat, j: nat)
    requires Drops(t, drop) && AtEdge(drop, i) && j < BLOCK
    ensures i < t.Count() && t.At(i) == Samples(i) && |t.Block(Samples(i))| == BLOCK && |t.There(Samples(i))| == BLOCK
    ensures t.There(Samples(i))[j] == t.reference[Samples(i) + j]
    ensures t.Block(Samples(i))[j] == if drop.k <= Samples(i) + j < drop.e then 0.0 else t.There(Samples(i))[j]
  {
    DropStarts(t, drop, i);
    DropSample(t, drop, Samples(i) + j);
    assert t.There(Samples(i))[j] == t.Sample(Samples(i) + j);
  }

  /** Both are audible and no longer the reference's, which had sound where the silence is;
      and something audible follows. */
  ghost predicate Cuts(t: Tape, drop: Dropout) {
    && Drops(t, drop)
    && (forall i: nat :: AtEdge(drop, i) && i < t.Count() ==>
          Energy(t.Block(Samples(i))) >= FLOOR && !t.Matches(t.Block(Samples(i)), Samples(i)))
    && (exists j :: drop.k <= j < Samples(drop.b) + BLOCK && j < |t.reference| && Loud(t.reference[j]))
    && (exists j :: Samples(drop.d) <= j < drop.e && j < |t.reference| && Loud(t.reference[j]))
    && (exists i :: drop.d < i < t.Count() && Energy(t.Block(Samples(i))) >= FLOOR)
  }

  // ---------------------------------------------------------------------- the walk

  function DropMark(t: Tape, drop: Dropout, i: nat): Mark {
    if AtEdge(drop, i) then Mark(Seam, 0, Samples(i))
    else if Energy(t.Block(Samples(i))) < FLOOR then Mark(Faint, 0, Samples(i))
    else Mark(Matched, 0, Samples(i))
  }

  ghost predicate DropWalk(t: Tape, drop: Dropout, w: Walk, j: nat) {
    j <= t.Count() && w.Walk? && |w.marks| == j && w.shift == 0 && forall i :: 0 <= i < j ==> w.marks[i] == DropMark(t, drop, i)
  }

  lemma EdgeNotPlaced(t: Tape, drop: Dropout, i: nat)
    requires Cuts(t, drop) && AtEdge(drop, i)
    ensures i < t.Count() && NotPlaced(t, t.Block(Samples(i)), Samples(i))
  {
    EdgeIs(t, drop, i, 0);
    var block := t.Block(Samples(i));
    if i == drop.b {
      forall j | 44 <= j < BLOCK ensures !Loud(block[j]) {
        EdgeIs(t, drop, i, j);
      }
      assert Silent(block[44..]);
    } else {
      forall j | 0 <= j < 4 ensures !Loud(block[j]) {
        EdgeIs(t, drop, i, j);
      }
      assert Silent(block[..4]);
    }
  }

  lemma DropMarked(t: Tape, drop: Dropout, marks: seq<Mark>, held: nat, j: nat)
    requires Cuts(t, drop) && j < t.Count() && |marks| == j && forall i :: 0 <= i < j ==> marks[i] == DropMark(t, drop, i)
    ensures t.Marked(marks, 0, held, t.At(j)) == Some(DropMark(t, drop, j))
  {
    DropStarts(t, drop, j);
    if AtEdge(drop, j) {
      EdgeNotPlaced(t, drop, j);
      NotPlacedIs(t, t.Block(Samples(j)), Samples(j), held);
      assert !t.Matches(t.Block(Samples(j)), Samples(j) + 0);
      TwoSeamsAtMost(t, drop, marks, j);
    } else if Within(drop, j) {
      WithinDrop(t, drop, j);
    } else {
      OutsideDrop(t, drop, j);
    }
  }

  lemma TwoSeamsAtMost(t: Tape, drop: Dropout, marks: seq<Mark>, j: nat)
    requires Inside(drop) && AtEdge(drop, j) && |marks| == j && forall i :: 0 <= i < j ==> marks[i] == DropMark(t, drop, i)
    ensures j >= 1 ==> marks[j - 1].kind != Seam
  {
  }

  lemma DropStep(t: Tape, drop: Dropout, w: Walk, j: nat)
    requires Cuts(t, drop) && DropWalk(t, drop, w, j) && j < t.Count()
    ensures DropWalk(t, drop, t.Step(w, t.At(j)), j + 1)
  {
    assert t.Marked(w.marks, 0, HeldNow(w), t.At(j)) == Some(DropMark(t, drop, j)) by {
      DropMarked(t, drop, w.marks, HeldNow(w), j);
    }
    DropAdds(t, drop, w, j);
  }

  lemma DropAdds(t: Tape, drop: Dropout, w: Walk, j: nat)
    requires DropWalk(t, drop, w, j) && j < t.Count()
    requires t.Marked(w.marks, 0, HeldNow(w), t.At(j)) == Some(DropMark(t, drop, j))
    ensures DropWalk(t, drop, t.Step(w, t.At(j)), j + 1)
  {
    StepAddsMark(t, w, t.At(j), DropMark(t, drop, j));
  }

  ghost predicate DropTo(t: Tape, drop: Dropout, j: nat) { j <= t.Count() && DropWalk(t, drop, t.Walked(j), j) }

  lemma DropOne(t: Tape, drop: Dropout, j: nat)
    requires Cuts(t, drop) && j < t.Count() && DropTo(t, drop, j)
    ensures DropTo(t, drop, j + 1)
  {
    var w, r := t.Walked(j), t.Walked(j + 1);
    assert r == t.Step(w, t.At(j)) by { WalkedNext(t, j); }
    DropStep(t, drop, w, j);
  }

  lemma {:induction false} DropOn(t: Tape, drop: Dropout, j: nat)
    requires j <= t.Count() && DropTo(t, drop, 0)
    requires forall i: nat :: i < t.Count() && DropTo(t, drop, i) ==> DropTo(t, drop, i + 1)
    ensures DropTo(t, drop, j)
    decreases j
  {
    if j > 0 {
      DropOn(t, drop, j - 1);
    }
  }

  lemma DropWalked(t: Tape, drop: Dropout)
    requires Cuts(t, drop)
    ensures DropWalk(t, drop, t.Walked(t.Count()), t.Count())
  {
    forall i: nat | i < t.Count() && DropTo(t, drop, i) ensures DropTo(t, drop, i + 1) {
      DropOne(t, drop, i);
    }
    DropOn(t, drop, t.Count());
  }

  // ----------------------------------------------------------------- reading it

  predicate Hides(t: Tape, drop: Dropout, i: nat) { Within(drop, i) && Heard(t.There(Samples(i))) > BLOCK / 2 }

  predicate DropReadsAs(t: Tape, drop: Dropout, mark: Mark, i: nat) {
    && mark.at == Samples(i) && mark.shift == 0
    && if AtEdge(drop, i) then mark.kind == Seam
       else if Within(drop, i) then mark.kind == (if Hides(t, drop, i) then Lost else Quiet)
       else mark.kind == if Energy(t.Block(Samples(i))) < FLOOR then Quiet else Matched
  }

  lemma DropReads(t: Tape, drop: Dropout, i: nat)
    requires Drops(t, drop) && i < t.Count()
    ensures DropReadsAs(t, drop, ReadLevel(t, DropMark(t, drop, i)), i)
  {
    if Within(drop, i) {
      WithinDrop(t, drop, i);
    } else if !AtEdge(drop, i) {
      OutsideDrop(t, drop, i);
      var here := t.Block(Samples(i));
      if Silent(here) {
        NothingHeard(here, BLOCK);
      }
    }
  }

  ghost predicate DropRead(t: Tape, drop: Dropout, read: seq<Mark>) {
    |read| == t.Count() && forall i: nat {:trigger DropReadsAs(t, drop, read[i], i)} :: i < |read| ==> DropReadsAs(t, drop, read[i], i)
  }

  lemma DropReadAll(t: Tape, drop: Dropout, marks: seq<Mark>, read: seq<Mark>)
    requires Drops(t, drop) && |marks| == t.Count() && ReadLevelAll(t, marks, read)
    requires forall i :: 0 <= i < |marks| ==> marks[i] == DropMark(t, drop, i)
    ensures DropRead(t, drop, read)
  {
    forall i: nat | i < |read| ensures DropReadsAs(t, drop, read[i], i) {
      DropReads(t, drop, i);
    }
  }

  // ------------------------------------------------------------- on its own cuts

  lemma {:induction false} HushedFront(t: Tape, block: seq<real>, s: nat)
    requires s <= |block| && forall j :: 0 <= j < s ==> !Loud(block[j])
    ensures t.Hushed(block, true) >= s
    decreases |block|
  {
    if s > 0 {
      HushedFront(t, block[1..], s - 1);
    }
  }

  lemma {:induction false} HushedBack(t: Tape, block: seq<real>, s: nat)
    requires s <= |block| && forall j :: |block| - s <= j < |block| ==> !Loud(block[j])
    ensures t.Hushed(block, false) >= s
    decreases |block|
  {
    if s > 0 {
      HushedBack(t, block[..|block| - 1], s - 1);
    }
  }

  /** A millisecond whose first `s` samples are silence over sound, and the rest the
      reference's, has silence ending inside it. */
  lemma SilenceEnds(t: Tape, at: nat, s: nat, x: nat)
    requires |t.Block(at)| == BLOCK && |t.There(at)| == BLOCK && x < s < BLOCK && Loud(t.There(at)[x])
    requires forall j :: 0 <= j < BLOCK ==> t.Block(at)[j] == if j < s then 0.0 else t.There(at)[j]
    ensures t.CutInside(at, 0, true)
  {
    var block, there := t.Block(at), t.There(at + 0);
    HushedFront(t, block, s);
    var n := t.Hushed(block, true);
    assert there[..n][x] == there[x];
    assert block[n..] == there[n..BLOCK];
    NoDifference(block[n..], BLOCK - n);
  }

  /** One whose last `s` samples are has it beginning there. */
  lemma SilenceBegins(t: Tape, at: nat, s: nat, x: nat)
    requires |t.Block(at)| == BLOCK && |t.There(at)| == BLOCK && 0 < s < BLOCK && BLOCK - s <= x < BLOCK && Loud(t.There(at)[x])
    requires forall j :: 0 <= j < BLOCK ==> t.Block(at)[j] == if j >= BLOCK - s then 0.0 else t.There(at)[j]
    ensures t.CutInside(at, 0, false)
  {
    var block, there := t.Block(at), t.There(at + 0);
    HushedBack(t, block, s);
    var m := BLOCK - t.Hushed(block, false);
    assert there[m..BLOCK][x - m] == there[x];
    assert block[..m] == there[..m];
    NoDifference(block[..m], m);
  }

  /** Silence ends inside millisecond `d`, over sound. */
  lemma EndsInside(t: Tape, drop: Dropout)
    requires Cuts(t, drop)
    ensures t.CutInside(Samples(drop.d), 0, true)
  {
    var j: nat :| Samples(drop.d) <= j < drop.e && j < |t.reference| && Loud(t.reference[j]);
    EndsOver(t, drop, j - Samples(drop.d));
  }

  lemma EndsOver(t: Tape, drop: Dropout, x: nat)
    requires Drops(t, drop) && Samples(drop.d) + x < drop.e && Loud(t.reference[Samples(drop.d) + x])
    ensures t.CutInside(Samples(drop.d), 0, true)
  {
    var at, s := Samples(drop.d), drop.e - Samples(drop.d);
    assert |t.Block(at)| == BLOCK && |t.There(at)| == BLOCK && Loud(t.There(at)[x]) by { EdgeIs(t, drop, drop.d, x); }
    forall j: nat | j < BLOCK ensures t.Block(at)[j] == if j < s then 0.0 else t.There(at)[j] {
      EdgeIs(t, drop, drop.d, j);
    }
    SilenceEnds(t, at, s, x);
  }

  /** And begins inside millisecond `b`. */
  lemma BeginsInside(t: Tape, drop: Dropout)
    requires Cuts(t, drop)
    ensures t.CutInside(Samples(drop.b), 0, false)
  {
    var j: nat :| drop.k <= j < Samples(drop.b) + BLOCK && j < |t.reference| && Loud(t.reference[j]);
    BeginsOver(t, drop, j - Samples(drop.b));
  }

  lemma BeginsOver(t: Tape, drop: Dropout, x: nat)
    requires Drops(t, drop) && drop.k <= Samples(drop.b) + x && x < BLOCK && Loud(t.reference[Samples(drop.b) + x])
    ensures t.CutInside(Samples(drop.b), 0, false)
  {
    var at, s := Samples(drop.b), Samples(drop.b) + BLOCK - drop.k;
    assert |t.Block(at)| == BLOCK && |t.There(at)| == BLOCK && Loud(t.There(at)[x]) by { EdgeIs(t, drop, drop.b, x); }
    forall j: nat | j < BLOCK ensures t.Block(at)[j] == if j >= BLOCK - s then 0.0 else t.There(at)[j] {
      EdgeIs(t, drop, drop.b, j);
    }
    SilenceBegins(t, at, s, x);
  }

  lemma {:induction false} UnshiftedSome(marks: seq<Mark>, index: nat, i: nat)
    requires index <= i < |marks| && marks[i].kind == Matched && forall k :: 0 <= k < |marks| ==> marks[k].shift == 0
    ensures ShiftAfter(marks, index) == Some(0)
    decreases |marks| - index
  {
    if marks[index].kind != Matched {
      UnshiftedSome(marks, index + 1, i);
    }
  }

  lemma DropUnshifted(t: Tape, drop: Dropout, read: seq<Mark>)
    requires DropRead(t, drop, read)
    ensures forall k :: 0 <= k < |read| ==> read[k].shift == 0
  {
    assert forall k: nat :: k < |read| ==> DropReadsAs(t, drop, read[k], k);
  }

  lemma BeginOnCut(t: Tape, drop: Dropout, read: seq<Mark>)
    requires Cuts(t, drop) && DropRead(t, drop, read)
    ensures drop.b + 1 < |read| && t.OnCut(read, drop.b, drop.b + 1, false)
  {
    DropStarts(t, drop, drop.b);
    assert ShiftBefore(read, drop.b) == 0 by {
      DropUnshifted(t, drop, read);
      UnshiftedBefore(read, drop.b);
    }
    assert DropReadsAs(t, drop, read[drop.b], drop.b) && DropReadsAs(t, drop, read[drop.b + 1], drop.b + 1);
    assert t.CutInside(read[drop.b].at, 0, false) by { BeginsInside(t, drop); }
  }

  lemma EndOnCut(t: Tape, drop: Dropout, read: seq<Mark>)
    requires Cuts(t, drop) && DropRead(t, drop, read)
    ensures 0 < drop.d < |read| && t.OnCut(read, drop.d, drop.d + 1, false)
  {
    DropStarts(t, drop, drop.d);
    assert ShiftAfter(read, drop.d + 1) == Some(0) by { SoundAfter(t, drop, read); }
    assert DropReadsAs(t, drop, read[drop.d], drop.d) && DropReadsAs(t, drop, read[drop.d - 1], drop.d - 1);
    assert t.CutInside(read[drop.d].at, 0, true) by { EndsInside(t, drop); }
  }

  lemma SoundAfter(t: Tape, drop: Dropout, read: seq<Mark>)
    requires Cuts(t, drop) && DropRead(t, drop, read)
    ensures ShiftAfter(read, drop.d + 1) == Some(0)
  {
    var i := MatchAfter(t, drop, read);
    UnshiftedSome(read, drop.d + 1, i);
  }

  lemma MatchAfter(t: Tape, drop: Dropout, read: seq<Mark>) returns (i: nat)
    requires Cuts(t, drop) && DropRead(t, drop, read)
    ensures drop.d < i < |read| && read[i].kind == Matched && forall k :: 0 <= k < |read| ==> read[k].shift == 0
  {
    i :| drop.d < i < t.Count() && Energy(t.Block(Samples(i))) >= FLOOR;
    LoudIsMatched(t, drop, read, i);
    DropUnshifted(t, drop, read);
  }

  lemma LoudIsMatched(t: Tape, drop: Dropout, read: seq<Mark>, i: nat)
    requires Inside(drop) && DropRead(t, drop, read) && drop.d < i < |read| && Energy(t.Block(Samples(i))) >= FLOOR
    ensures read[i].kind == Matched
  {
    assert DropReadsAs(t, drop, read[i], i);
  }

  /** Every seam is a run of its own and sits on a cut. */
  ghost predicate EachFits(t: Tape, read: seq<Mark>) {
    forall i: nat :: i < |read| && read[i].kind == Seam ==> FitsAlone(t, read, i)
  }

  predicate FitsAlone(t: Tape, read: seq<Mark>, i: nat)
    requires i < |read| && read[i].kind == Seam
  {
    RunEnd(read, i, Seam) == i + 1 && t.OnCut(read, i, i + 1, false)
  }

  lemma {:induction false} AllFit(t: Tape, read: seq<Mark>, first: nat)
    requires EachFits(t, read) && first <= |read|
    ensures t.SeamsFit(read, first, false)
    decreases |read| - first
  {
    if first < |read| {
      AllFit(t, read, first + 1);
      if read[first].kind == Seam {
        assert FitsAlone(t, read, first);
      }
    }
  }

  lemma DropFits(t: Tape, drop: Dropout, read: seq<Mark>)
    requires Cuts(t, drop) && DropRead(t, drop, read)
    ensures t.SeamsFit(read, 0, false)
  {
    forall i: nat | i < |read| && read[i].kind == Seam ensures FitsAlone(t, read, i) {
      assert AtEdge(drop, i) by { assert DropReadsAs(t, drop, read[i], i); }
      EdgeFits(t, drop, read, i);
    }
    AllFit(t, read, 0);
  }

  /** Each edge is a run of its own, on its own cut. */
  lemma EdgeFits(t: Tape, drop: Dropout, read: seq<Mark>, i: nat)
    requires Cuts(t, drop) && DropRead(t, drop, read) && i < |read| && AtEdge(drop, i)
    ensures read[i].kind == Seam && FitsAlone(t, read, i)
  {
    if i == drop.b {
      BeginFits(t, drop, read);
    } else {
      EndFits(t, drop, read);
    }
  }

  lemma BeginFits(t: Tape, drop: Dropout, read: seq<Mark>)
    requires Cuts(t, drop) && DropRead(t, drop, read)
    ensures drop.b < |read| && read[drop.b].kind == Seam && FitsAlone(t, read, drop.b)
  {
    assert drop.b < |read| && t.OnCut(read, drop.b, drop.b + 1, false) by { BeginOnCut(t, drop, read); }
    EdgeAlone(t, drop, read, drop.b);
  }

  lemma EndFits(t: Tape, drop: Dropout, read: seq<Mark>)
    requires Cuts(t, drop) && DropRead(t, drop, read)
    ensures drop.d < |read| && read[drop.d].kind == Seam && FitsAlone(t, read, drop.d)
  {
    assert drop.d < |read| && t.OnCut(read, drop.d, drop.d + 1, false) by { EndOnCut(t, drop, read); }
    EdgeAlone(t, drop, read, drop.d);
  }

  lemma EdgeAlone(t: Tape, drop: Dropout, read: seq<Mark>, i: nat)
    requires Inside(drop) && DropRead(t, drop, read) && i < |read| && AtEdge(drop, i)
    ensures read[i].kind == Seam && RunEnd(read, i, Seam) == i + 1
  {
    assert DropReadsAs(t, drop, read[i], i);
    if i + 1 < |read| {
      assert DropReadsAs(t, drop, read[i + 1], i + 1);
    }
  }

  // ------------------------------------------------------------ what it amounts to

  /** How many of the first `m` milliseconds didn't arrive: the two at the edges, and those
      between that are silence where the reference is mostly sound. */
  function GoneBy(t: Tape, drop: Dropout, m: nat): nat {
    if m == 0 then 0 else GoneBy(t, drop, m - 1) + (if AtEdge(drop, m - 1) || Hides(t, drop, m - 1) then 1 else 0)
  }

  lemma {:induction false} DropArrived(t: Tape, drop: Dropout, read: seq<Mark>, m: nat)
    requires DropRead(t, drop, read) && m <= |read| && Samples(|read|) <= |t.reference|
    ensures GoneBy(t, drop, m) <= m && t.Arrived(read[..m]) == m - GoneBy(t, drop, m)
    ensures m > drop.b ==> GoneBy(t, drop, m) > 0
    decreases m
  {
    if m > 0 {
      DropArrived(t, drop, read, m - 1);
      assert read[..m][..m - 1] == read[..m - 1] && read[..m][m - 1] == read[m - 1];
      assert DropReadsAs(t, drop, read[m - 1], m - 1);
    }
  }

  /** What there is to say of the marks before the verdict. */
  ghost predicate DropFacts(t: Tape, read: seq<Mark>, count: nat, lost: nat) {
    && t.SeamsFit(read, 0, false) && Damaged(read) && 0 < lost <= count && t.Arrived(read) == count - lost
    && Samples(count) == |t.reference|
  }

  lemma DropTold(t: Tape, drop: Dropout, read: seq<Mark>)
    requires Cuts(t, drop) && DropRead(t, drop, read)
    ensures DropFacts(t, read, t.Count(), GoneBy(t, drop, t.Count()))
  {
    assert t.SeamsFit(read, 0, false) by { DropFits(t, drop, read); }
    assert drop.b < |read| && Samples(t.Count()) == |t.reference| by { DropStarts(t, drop, drop.b); }
    assert Damaged(read) by { assert DropReadsAs(t, drop, read[drop.b], drop.b); }
    DropArrived(t, drop, read, |read|);
    assert read[..|read|] == read;
  }

  lemma DropShifts(t: Tape, drop: Dropout, marks: seq<Mark>)
    requires Cuts(t, drop) && |marks| == t.Count() && forall i :: 0 <= i < |marks| ==> marks[i] == DropMark(t, drop, i)
    ensures Level(marks) && Shifts(marks) != [] && forall i :: 0 <= i < |Shifts(marks)| ==> Shifts(marks)[i] == 0
  {
    var i: nat :| drop.d < i < t.Count() && Energy(t.Block(Samples(i))) >= FLOOR;
    assert marks[i] == DropMark(t, drop, i);
    LevelShifts(marks, |marks|, i);
    assert marks[..|marks|] == marks;
  }

  lemma DropShown(t: Tape, drop: Dropout) returns (read: seq<Mark>, shifts: seq<int>)
    requires Cuts(t, drop)
    ensures DropFacts(t, read, t.Count(), GoneBy(t, drop, t.Count()))
    ensures shifts != [] && forall i :: 0 <= i < |shifts| ==> shifts[i] == 0
    ensures t.Missing() == t.Verdict(read, shifts, false)
  {
    var w := t.Walked(t.Count());
    assert DropWalk(t, drop, w, t.Count()) by { DropWalked(t, drop); }
    var marks := w.marks;
    read, shifts := t.Resolved(marks), Shifts(marks);
    assert Level(marks) && shifts != [] && forall i :: 0 <= i < |shifts| ==> shifts[i] == 0 by { DropShifts(t, drop, marks); }
    assert DropFacts(t, read, t.Count(), GoneBy(t, drop, t.Count())) by {
      ResolvedLevelAll(t, marks);
      DropReadAll(t, drop, marks, read);
      DropTold(t, drop, read);
    }
    assert !t.TailLost(w.shift) by { TailArrived(t, 0); }
  }

  lemma {:induction false} LevelShifts(marks: seq<Mark>, m: nat, x: nat)
    requires Level(marks) && m <= |marks|
    ensures forall i :: 0 <= i < |Shifts(marks[..m])| ==> Shifts(marks[..m])[i] == 0
    ensures x < m && marks[x].kind == Matched ==> Shifts(marks[..m]) != []
    decreases m
  {
    if m > 0 {
      LevelShifts(marks, m - 1, x);
      assert marks[..m][..m - 1] == marks[..m - 1] && marks[..m][m - 1] == marks[m - 1];
    }
  }

  lemma DropAnswer(t: Tape, read: seq<Mark>, shifts: seq<int>, count: nat, lost: nat, answer: Option<int>)
    requires DropFacts(t, read, count, lost) && shifts != [] && forall i :: 0 <= i < |shifts| ==> shifts[i] == 0
    requires answer == t.Verdict(read, shifts, false)
    ensures answer == Some(Samples(lost))
  {
    LevelAnswer(t, read, shifts, count, lost, answer);
  }

  /** The answer when silence takes the place of sound from inside one millisecond to inside
      another: those two, and every one between where the reference is mostly sound. */
  lemma DropoutInsideIsMissed(t: Tape, drop: Dropout)
    requires Cuts(t, drop)
    ensures t.Missing() == Some(Samples(GoneBy(t, drop, t.Count())))
  {
    var read, shifts := DropShown(t, drop);
    DropAnswer(t, read, shifts, t.Count(), GoneBy(t, drop, t.Count()), t.Missing());
  }
}
