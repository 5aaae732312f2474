/** That a crackle is not taken for a loss: `missing` gives no answer for a recording with
    one millisecond that is nothing of the reference's and sits on no cut. */
module AudioCrackle {
  import opened Common
  import opened Audio
  import opened AudioWhole
  import opened AudioSound
  import opened AudioRead
  import opened AudioSplice
  import opened AudioLosses

  /** The recording is its reference, whole milliseconds long, but for millisecond `c`: that
      is sound from its first sample to its last, and matches the reference nowhere. */
  ghost predicate Crackles(t: Tape, c: nat) {
    && |t.recorded| == |t.reference| && |t.reference| % BLOCK == 0 && Samples(c) + BLOCK <= |t.reference|
    && t.recorded[..Samples(c)] == t.reference[..Samples(c)]
    && t.recorded[Samples(c) + BLOCK..] == t.reference[Samples(c) + BLOCK..]
    && var crackle := t.Block(Samples(c));
       && Energy(crackle) >= FLOOR && |crackle| == BLOCK && Loud(crackle[0]) && Loud(crackle[BLOCK - 1])
       && forall q :: !t.Matches(crackle, q)
  }

  lemma StartsAre(t: Tape, c: nat, i: nat)
    requires Crackles(t, c)
    ensures c < t.Count() && Samples(t.Count()) == |t.recorded|
    ensures i < t.Count() ==> t.At(i) == Samples(i)
  {
  }

  lemma OthersAre(t: Tape, c: nat, i: nat)
    requires Crackles(t, c) && i < t.Count() && i != c
    ensures var at := Samples(i);
            && t.At(i) == at && at + BLOCK <= |t.recorded| && |t.Block(at)| == BLOCK && t.Block(at) == t.There(at)
            && (Energy(t.Block(at)) >= FLOOR ==> t.Matches(t.Block(at), at))
  {
    StartsAre(t, c, i);
    var at, cut := Samples(i), Samples(c);
    if i < c {
      assert t.recorded[at..at + BLOCK] == t.recorded[..cut][at..at + BLOCK];
      assert t.reference[at..at + BLOCK] == t.reference[..cut][at..at + BLOCK];
    } else {
      var after := at - cut - BLOCK;
      assert t.recorded[at..at + BLOCK] == t.recorded[cut + BLOCK..][after..after + BLOCK];
      assert t.reference[at..at + BLOCK] == t.reference[cut + BLOCK..][after..after + BLOCK];
    }
    Identical(t, at, at);
  }

  lemma NowhereFound(t: Tape, block: seq<real>, at: nat, start: int, stop: int)
    requires forall q :: !t.Matches(block, q)
    ensures t.Find(block, at, start, stop).None?
  {
    FoundMatches(t, block, at, start, stop);
  }

  lemma NowherePlaced(t: Tape, block: seq<real>, at: nat, shift: int, held: nat)
    requires forall q :: !t.Matches(block, q)
    ensures t.Place(block, at, shift, held).None?
  {
    NowhereFound(t, block, at, shift - DRIFT, shift + DRIFT + 1);
    NowhereFound(t, block, at, shift - DRIFT - held, shift - DRIFT);
    NowhereFound(t, block, at, shift + DRIFT + 1, |t.reference|);
  }

  function MarkFor(t: Tape, c: nat, i: nat): Mark {
    if i == c then Mark(Seam, 0, Samples(i))
    else if Energy(t.Block(Samples(i))) < FLOOR then Mark(Faint, 0, Samples(i))
    else Mark(Matched, 0, Samples(i))
  }

  ghost predicate Marks(t: Tape, c: nat, w: Walk, j: nat) {
    w.Walk? && |w.marks| == j && w.shift == 0 && forall i :: 0 <= i < j ==> w.marks[i] == MarkFor(t, c, i)
  }

  lemma MarkedIs(t: Tape, c: nat, marks: seq<Mark>, held: nat, j: nat)
    requires Crackles(t, c) && j < t.Count() && |marks| == j && forall i :: 0 <= i < j ==> marks[i] == MarkFor(t, c, i)
    ensures t.Marked(marks, 0, held, t.At(j)) == Some(MarkFor(t, c, j))
  {
    StartsAre(t, c, j);
    if j == c {
      assert !t.Matches(t.Block(Samples(c)), Samples(c) + 0);
      NowherePlaced(t, t.Block(Samples(c)), Samples(c), 0, held);
    } else {
      OthersAre(t, c, j);
    }
  }

  lemma StepMarks(t: Tape, c: nat, w: Walk, j: nat)
    requires Crackles(t, c) && Marks(t, c, w, j) && j < t.Count()
    ensures Marks(t, c, t.Step(w, t.At(j)), j + 1)
  {
    MarkedIs(t, c, w.marks, HeldNow(w), j);
  }

  ghost predicate MarksTo(t: Tape, c: nat, j: nat) { j <= t.Count() && Marks(t, c, t.Walked(j), j) }

  lemma OneMarked(t: Tape, c: nat, j: nat)
    requires Crackles(t, c) && j < t.Count() && MarksTo(t, c, j)
    ensures MarksTo(t, c, j + 1)
  {
    var w, r := t.Walked(j), t.Walked(j + 1);
    assert r == t.Step(w, t.At(j)) by { WalkedNext(t, j); }
    StepMarks(t, c, w, j);
  }

  lemma {:induction false} MarkedOn(t: Tape, c: nat, j: nat)
    requires j <= t.Count() && MarksTo(t, c, 0)
    requires forall i: nat :: i < t.Count() && MarksTo(t, c, i) ==> MarksTo(t, c, i + 1)
    ensures MarksTo(t, c, j)
    decreases j
  {
    if j > 0 {
      MarkedOn(t, c, j - 1);
    }
  }

  lemma AllMarked(t: Tape, c: nat)
    requires Crackles(t, c)
    ensures Marks(t, c, t.Walked(t.Count()), t.Count())
  {
    forall i: nat | i < t.Count() && MarksTo(t, c, i) ensures MarksTo(t, c, i + 1) {
      OneMarked(t, c, i);
    }
    MarkedOn(t, c, t.Count());
  }

  // ----------------------------------------------------------------- on no cut

  /** One seam, at `c`, where it crackles; everything else arrived in place. */
  ghost predicate OneSeam(t: Tape, c: nat, marks: seq<Mark>) {
    && Crackles(t, c) && c < |marks| && marks[c] == Mark(Seam, 0, Samples(c))
    && forall i :: 0 <= i < |marks| && i != c ==> (marks[i].kind == Matched || marks[i].kind == Quiet) && marks[i].shift == 0
  }

  lemma {:induction false} UnshiftedBefore(marks: seq<Mark>, index: nat)
    requires index <= |marks| && forall i :: 0 <= i < |marks| ==> marks[i].shift == 0
    ensures ShiftBefore(marks, index) == 0
    decreases index
  {
    if index > 0 {
      UnshiftedBefore(marks, index - 1);
    }
  }

  lemma {:induction false} UnshiftedAfter(marks: seq<Mark>, index: nat)
    requires forall i :: 0 <= i < |marks| ==> marks[i].shift == 0
    ensures ShiftAfter(marks, index).Some? ==> ShiftAfter(marks, index).value == 0
    decreases |marks| - index
  {
    if index < |marks| {
      UnshiftedAfter(marks, index + 1);
    }
  }

  lemma NoCutInside(t: Tape, c: nat, leading: bool)
    requires Crackles(t, c)
    ensures !t.CutInside(Samples(c), 0, leading)
  {
    assert t.Hushed(t.Block(Samples(c)), leading) == 0;
  }

  lemma NotOnCut(t: Tape, c: nat, marks: seq<Mark>)
    requires OneSeam(t, c, marks)
    ensures !t.OnCut(marks, c, c + 1, false)
  {
    UnshiftedBefore(marks, c);
    UnshiftedAfter(marks, c + 1);
    NoCutInside(t, c, true);
    NoCutInside(t, c, false);
  }

  lemma {:induction false} SeamDoesNotFit(t: Tape, c: nat, marks: seq<Mark>, first: nat)
    requires OneSeam(t, c, marks) && first <= c
    ensures !t.SeamsFit(marks, first, false)
    decreases c - first
  {
    if first < c {
      SeamDoesNotFit(t, c, marks, first + 1);
    } else {
      assert RunEnd(marks, c, Seam) == c + 1;
      NotOnCut(t, c, marks);
    }
  }

  lemma ReadsOneSeam(t: Tape, c: nat, marks: seq<Mark>, read: seq<Mark>)
    requires Crackles(t, c) && |marks| == t.Count() && ReadLevelAll(t, marks, read)
    requires forall i :: 0 <= i < |marks| ==> marks[i] == MarkFor(t, c, i)
    ensures OneSeam(t, c, read)
  {
    StartsAre(t, c, c);
    forall i: nat | i < |read| && i != c ensures (read[i].kind == Matched || read[i].kind == Quiet) && read[i].shift == 0 {
      OthersAre(t, c, i);
      var here := t.Block(Samples(i));
      if Silent(here) {
        NothingHeard(here, BLOCK);
      }
    }
  }

  /** A crackle gets no answer, wherever in the sound it is. */
  lemma CrackleIsNoLoss(t: Tape, c: nat)
    requires Crackles(t, c)
    ensures t.Missing() == None
  {
    var w := t.Walked(t.Count());
    assert Marks(t, c, w, t.Count()) by { AllMarked(t, c); }
    var read := t.Resolved(w.marks);
    assert !t.SeamsFit(read, 0, false) by {
      assert Level(w.marks);
      ResolvedLevelAll(t, w.marks);
      ReadsOneSeam(t, c, w.marks, read);
      SeamDoesNotFit(t, c, read, 0);
    }
    assert !t.TailLost(w.shift) by { TailArrived(t, 0); }
  }
}
