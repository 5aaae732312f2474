/** What `missing` answers for a recording that stops short with a broken last
    millisecond: a seam at its end sits on the cut if the reference carries on. */
module AudioTail {
  import opened Common
  import opened Audio
  import opened AudioWhole
  import opened AudioSound
  import opened AudioRead
  import opened AudioSplice
  import opened AudioLosses
  import opened AudioCrackle
  import opened AudioDropout
  import opened AudioSeam

  /** The reference's first `k` milliseconds, something audible among them, and one more
      that is not looked for; more than a millisecond of sound would have followed. */
  ghost predicate Breaks(t: Tape, k: nat) {
    && |t.recorded| == Samples(k) + BLOCK <= |t.reference|
    && t.recorded[..Samples(k)] == t.reference[..Samples(k)]
    && Energy(t.Block(Samples(k))) >= FLOOR && NotPlaced(t, t.Block(Samples(k)), Samples(k))
    && Heard(t.reference[|t.recorded|..]) > BLOCK
    && exists i :: 0 <= i < k && Energy(t.Block(Samples(i))) >= FLOOR
  }

  lemma BreakStarts(t: Tape, k: nat, i: nat)
    requires |t.recorded| == Samples(k) + BLOCK
    ensures t.Count() == k + 1 && (i <= k ==> t.At(i) == Samples(i))
  {
  }

  lemma BeforeBreak(t: Tape, k: nat, i: nat)
    requires Breaks(t, k) && i < k
    ensures var at := Samples(i);
            && |t.Block(at)| == BLOCK && t.Block(at) == t.There(at)
            && (Energy(t.Block(at)) >= FLOOR ==> t.Matches(t.Block(at), at))
  {
    var at := Samples(i);
    SliceOf(t.recorded, Samples(k), at);
    SliceOf(t.reference, Samples(k), at);
    Identical(t, at, at);
  }

  lemma SliceOf(s: seq<real>, n: nat, at: nat)
    requires at + BLOCK <= n <= |s|
    ensures s[at..at + BLOCK] == s[..n][at..at + BLOCK]
  {
  }

  function BreakMark(t: Tape, k: nat, i: nat): Mark {
    if i == k then Mark(Seam, 0, Samples(i))
    else if Energy(t.Block(Samples(i))) < FLOOR then Mark(Faint, 0, Samples(i))
    else Mark(Matched, 0, Samples(i))
  }

  ghost predicate BreakWalk(t: Tape, k: nat, w: Walk, j: nat) {
    j <= t.Count() && w.Walk? && |w.marks| == j && w.shift == 0 && forall i: nat :: i < j ==> w.marks[i] == BreakMark(t, k, i)
  }

  lemma BreakMarked(t: Tape, k: nat, marks: seq<Mark>, held: nat, j: nat)
    requires Breaks(t, k) && j < t.Count() && |marks| == j && forall i: nat :: i < j ==> marks[i] == BreakMark(t, k, i)
    ensures t.Marked(marks, 0, held, t.At(j)) == Some(BreakMark(t, k, j))
  {
    BreakStarts(t, k, j);
    if j == k {
      NotPlacedIs(t, t.Block(Samples(k)), Samples(k), held);
      assert !t.Matches(t.Block(Samples(k)), Samples(k) + 0);
    } else {
      BeforeBreak(t, k, j);
    }
  }

  lemma BreakStep(t: Tape, k: nat, w: Walk, j: nat)
    requires Breaks(t, k) && BreakWalk(t, k, w, j) && j < t.Count()
    ensures BreakWalk(t, k, t.Step(w, t.At(j)), j + 1)
  {
    BreakMarked(t, k, w.marks, HeldNow(w), j);
  }

  ghost predicate BreakTo(t: Tape, k: nat, j: nat) { j <= t.Count() && BreakWalk(t, k, t.Walked(j), j) }

  lemma BreakOne(t: Tape, k: nat, j: nat)
    requires Breaks(t, k) && j < t.Count() && BreakTo(t, k, j)
    ensures BreakTo(t, k, j + 1)
  {
    var w, r := t.Walked(j), t.Walked(j + 1);
    assert r == t.Step(w, t.At(j)) by { WalkedNext(t, j); }
    BreakStep(t, k, w, j);
  }

  lemma {:induction false} BreakOn(t: Tape, k: nat, j: nat)
    requires j <= t.Count() && BreakTo(t, k, 0)
    requires forall i: nat :: i < t.Count() && BreakTo(t, k, i) ==> BreakTo(t, k, i + 1)
    ensures BreakTo(t, k, j)
    decreases j
  {
    if j > 0 {
      BreakOn(t, k, j - 1);
    }
  }

  lemma BreakWalked(t: Tape, k: nat)
    requires Breaks(t, k)
    ensures BreakWalk(t, k, t.Walked(t.Count()), t.Count())
  {
    forall i: nat | i < t.Count() && BreakTo(t, k, i) ensures BreakTo(t, k, i + 1) {
      BreakOne(t, k, i);
    }
    BreakOn(t, k, t.Count());
  }

  // ------------------------------------------------------------ what it amounts to

  /** Everything arrived in place but the last, which is a seam. */
  ghost predicate LastIsSeam(t: Tape, k: nat, read: seq<Mark>) {
    && |read| == k + 1 && read[k].kind == Seam
    && forall i: nat :: i < k ==> (read[i].kind == Matched || read[i].kind == Quiet) && read[i].at + read[i].shift < |t.reference|
  }

  lemma BreakReads(t: Tape, k: nat, marks: seq<Mark>, read: seq<Mark>)
    requires Breaks(t, k) && |marks| == k + 1 && ReadLevelAll(t, marks, read)
    requires forall i: nat :: i < |marks| ==> marks[i] == BreakMark(t, k, i)
    ensures LastIsSeam(t, k, read)
  {
    forall i: nat | i < k
      ensures (read[i].kind == Matched || read[i].kind == Quiet) && read[i].at + read[i].shift < |t.reference|
    {
      BeforeBreak(t, k, i);
      var here := t.Block(Samples(i));
      if Silent(here) {
        NothingHeard(here, BLOCK);
      }
    }
    assert marks[k] == BreakMark(t, k, k);
  }

  lemma {:induction false} LastFits(t: Tape, k: nat, read: seq<Mark>, first: nat)
    requires LastIsSeam(t, k, read) && first <= |read|
    ensures t.SeamsFit(read, first, true)
    decreases |read| - first
  {
    if first < |read| {
      LastFits(t, k, read, first + 1);
      if first == k {
        assert RunEnd(read, first, Seam) == first + 1;
      }
    }
  }

  lemma {:induction false} LastArrived(t: Tape, k: nat, read: seq<Mark>, m: nat)
    requires LastIsSeam(t, k, read) && m <= |read|
    ensures t.Arrived(read[..m]) == if m > k then k else m
    decreases m
  {
    if m > 0 {
      LastArrived(t, k, read, m - 1);
      assert read[..m][..m - 1] == read[..m - 1] && read[..m][m - 1] == read[m - 1];
    }
  }

  lemma BreakShifts(t: Tape, k: nat, marks: seq<Mark>)
    requires Breaks(t, k) && |marks| == k + 1 && forall i: nat :: i < |marks| ==> marks[i] == BreakMark(t, k, i)
    ensures Level(marks) && Shifts(marks) != [] && forall i :: 0 <= i < |Shifts(marks)| ==> Shifts(marks)[i] == 0
  {
    var i: nat :| i < k && Energy(t.Block(Samples(i))) >= FLOOR;
    assert marks[i] == BreakMark(t, k, i);
    LevelShifts(marks, |marks|, i);
    assert marks[..|marks|] == marks;
  }

  lemma BreakShown(t: Tape, k: nat) returns (read: seq<Mark>, shifts: seq<int>)
    requires Breaks(t, k)
    ensures LastIsSeam(t, k, read) && shifts != [] && forall i :: 0 <= i < |shifts| ==> shifts[i] == 0
    ensures t.Missing() == t.Verdict(read, shifts, true)
  {
    var w := t.Walked(t.Count());
    assert BreakWalk(t, k, w, t.Count()) by { BreakWalked(t, k); }
    assert t.Count() == k + 1 by { BreakStarts(t, k, k); }
    var marks := w.marks;
    read, shifts := t.Resolved(marks), Shifts(marks);
    assert Level(marks) && shifts != [] && forall i :: 0 <= i < |shifts| ==> shifts[i] == 0 by { BreakShifts(t, k, marks); }
    assert LastIsSeam(t, k, read) by {
      ResolvedLevelAll(t, marks);
      BreakReads(t, k, marks, read);
    }
    assert t.TailLost(w.shift);
  }

  lemma BreakAnswer(t: Tape, k: nat, read: seq<Mark>, shifts: seq<int>, answer: Option<int>)
    requires shifts != [] && forall i :: 0 <= i < |shifts| ==> shifts[i] == 0
    requires Samples(k) < |t.reference| && LastIsSeam(t, k, read) && answer == t.Verdict(read, shifts, true)
    ensures answer == Some(|t.reference| - Samples(k))
  {
    assert t.SeamsFit(read, 0, true) by { LastFits(t, k, read, 0); }
    assert t.Arrived(read) == k by {
      LastArrived(t, k, read, |read|);
      assert read[..|read|] == read;
    }
    assert Paused(shifts) == 0 by { NoPause(shifts); }
  }

  /** A recording that stops short inside a millisecond is missing that one and all that
      follows. */
  lemma BrokenOffIsMissed(t: Tape, k: nat)
    requires Breaks(t, k)
    ensures t.Missing() == Some(|t.reference| - Samples(k))
  {
    var read, shifts := BreakShown(t, k);
    BreakAnswer(t, k, read, shifts, t.Missing());
  }
}
