/** What `missing` answers for a recording that is the start of its reference:
    a whole one, and one cut off. */
module AudioWhole {
  import opened Common
  import opened Audio
  import opened AudioRead

  lemma CountFits(t: Tape)
    ensures t.Count() > 0 <==> |t.recorded| >= BLOCK
    ensures t.Count() > 0 ==> |t.recorded| <= Samples(t.Count()) < |t.recorded| + BLOCK
  {
  }

  lemma {:induction false} NoDifference(a: seq<real>, n: nat)
    requires n <= |a|
    ensures DiffTo(a, a, n) == 0.0
  {
    if n > 0 {
      NoDifference(a, n - 1);
    }
  }

  /** The recording is the reference's first samples. */
  ghost predicate CutOff(t: Tape) { t.recorded <= t.reference }

  lemma SameBlock(t: Tape, at: nat)
    requires CutOff(t) && at + BLOCK <= |t.recorded|
    ensures t.Block(at) == t.There(at) && |t.Block(at)| == BLOCK
    ensures t.Difference(t.Block(at), at) == 0.0
    ensures Energy(t.Block(at)) >= FLOOR ==> t.Matches(t.Block(at), at)
  {
    var block, there := t.Block(at), t.There(at);
    forall i | 0 <= i < BLOCK ensures block[i] == there[i] {
      assert block[i] == t.recorded[at + i] == t.reference[at + i] == t.Sample(at + i);
    }
    assert block == there;
    NoDifference(block, BLOCK);
  }

  /** In its place and unshifted: matched, or too faint to say. */
  predicate InPlace(t: Tape, mark: Mark, at: nat) {
    mark == if Energy(t.Block(at)) < FLOOR then Mark(Faint, 0, at) else Mark(Matched, 0, at)
  }

  lemma StepsStraight(t: Tape, w: Walk, at: nat)
    requires CutOff(t) && at + BLOCK <= |t.recorded| && w.Walk? && w.shift == 0
    ensures var r := t.Step(w, at);
            r.Walk? && r.shift == 0 && |r.marks| == |w.marks| + 1 && r.marks[..|w.marks|] == w.marks
            && InPlace(t, r.marks[|w.marks|], at)
  {
    SameBlock(t, at);
    assert at + w.shift == at;
  }

  lemma {:induction false} WalksStraight(t: Tape, k: nat)
    requires CutOff(t) && k <= t.Count()
    ensures var w := t.Walked(k);
            && w.Walk? && w.shift == 0 && |w.marks| == k
            && forall i :: 0 <= i < k ==> InPlace(t, w.marks[i], t.At(i))
    decreases k
  {
    if k > 0 {
      WalksStraight(t, k - 1);
      var before, w := t.Walked(k - 1), t.Walked(k);
      StepsStraight(t, before, t.At(k - 1));
      assert w == t.Step(before, t.At(k - 1));
      forall i | 0 <= i < k - 1 ensures InPlace(t, w.marks[i], t.At(i)) {
        assert w.marks[i] == w.marks[..k - 1][i] == before.marks[i];
      }
    }
  }

  predicate Straight(marks: seq<Mark>) {
    forall i :: 0 <= i < |marks| ==> (marks[i].kind == Matched || marks[i].kind == Faint) && marks[i].shift == 0
  }

  lemma {:induction false} NothingHeard(s: seq<real>, n: nat)
    requires Silent(s) && n <= |s|
    ensures HeardTo(s, n) == 0
  {
    if n > 0 {
      NothingHeard(s, n - 1);
    }
  }

  lemma NotSilenced(t: Tape, at: nat)
    requires CutOff(t) && at + BLOCK <= |t.recorded|
    ensures !t.Silenced(at, 0)
  {
    SameBlock(t, at);
    if Silent(t.Block(at)) {
      NothingHeard(t.There(at + 0), BLOCK);
    }
  }

  ghost predicate Fits(t: Tape, marks: seq<Mark>) { forall i :: 0 <= i < |marks| ==> marks[i].at + BLOCK <= |t.recorded| }

  lemma ReadsQuiet(t: Tape, mark: Mark)
    requires CutOff(t) && mark.at + BLOCK <= |t.recorded|
    ensures t.Read(mark, 0) == Mark(Quiet, 0, mark.at)
  {
    NotSilenced(t, mark.at);
  }

  /** Every millisecond arrived, where it should. */
  predicate Arrives(mark: Mark, from: Mark) {
    (mark.kind == Matched || mark.kind == Quiet) && mark.shift == 0 && mark.at == from.at
  }

  lemma AllArrive(t: Tape, marks: seq<Mark>, read: seq<Mark>)
    requires CutOff(t) && Straight(marks) && Fits(t, marks) && ReadLevelAll(t, marks, read)
    ensures AllIn(read, marks)
  {
    forall k | 0 <= k < |read| ensures Arrives(read[k], marks[k]) {
      if marks[k].kind == Faint {
        ReadsQuiet(t, marks[k]);
      }
    }
  }

  lemma {:induction false} NoSeams(t: Tape, marks: seq<Mark>, first: nat, tail: bool)
    requires forall i :: 0 <= i < |marks| ==> marks[i].kind != Seam
    ensures t.SeamsFit(marks, first, tail)
    decreases |marks| - first
  {
    if first < |marks| {
      NoSeams(t, marks, first + 1, tail);
    }
  }

  lemma {:induction false} ZeroShifts(marks: seq<Mark>)
    requires Straight(marks)
    ensures forall i :: 0 <= i < |Shifts(marks)| ==> Shifts(marks)[i] == 0
    ensures Shifts(marks) == [] <==> forall i :: 0 <= i < |marks| ==> marks[i].kind == Faint
  {
    if marks != [] {
      ZeroShifts(marks[..|marks| - 1]);
    }
  }

  lemma {:induction false} NoPause(shifts: seq<int>)
    requires forall i :: 0 <= i < |shifts| ==> shifts[i] == 0
    ensures Paused(shifts) == 0
  {
    if |shifts| >= 2 {
      NoPause(shifts[..|shifts| - 1]);
    }
  }

  lemma {:induction false} EveryoneArrived(t: Tape, marks: seq<Mark>)
    requires forall i :: 0 <= i < |marks| ==>
               (marks[i].kind == Matched || marks[i].kind == Quiet) && marks[i].at + marks[i].shift < |t.reference|
    ensures t.Arrived(marks) == |marks|
  {
    if marks != [] {
      EveryoneArrived(t, marks[..|marks| - 1]);
    }
  }

  /** The recording has a millisecond loud enough to place. */
  ghost predicate Audible(t: Tape) {
    exists k :: 0 <= k < t.Count() && Energy(t.Block(t.At(k))) >= FLOOR
  }

  lemma {:induction false} HeardFits(s: seq<real>, n: nat)
    requires n <= |s|
    ensures HeardTo(s, n) <= n
  {
    if n > 0 {
      HeardFits(s, n - 1);
    }
  }

  lemma WalkedMarks(t: Tape)
    requires CutOff(t)
    ensures var w := t.Walked(t.Count());
            && w.Walk? && w.shift == 0 && |w.marks| == t.Count() && Straight(w.marks) && Fits(t, w.marks)
            && (Shifts(w.marks) != [] <==> Audible(t))
  {
    var n := t.Count();
    WalksStraight(t, n);
    CountFits(t);
    var marks := t.Walked(n).marks;
    assert forall i :: 0 <= i < n ==> InPlace(t, marks[i], t.At(i));
    ZeroShifts(marks);
    if Audible(t) {
      var k :| 0 <= k < n && Energy(t.Block(t.At(k))) >= FLOOR;
      assert marks[k].kind == Matched;
    } else {
      assert forall i :: 0 <= i < n ==> marks[i].kind == Faint;
    }
  }

  /** Marks that all arrived in place leave only the tail to ask about. */
  lemma ArrivedMarks(t: Tape, from: seq<Mark>, marks: seq<Mark>, shifts: seq<int>, tail: bool)
    requires CutOff(t) && Fits(t, from) && AllIn(marks, from)
    requires shifts != [] && forall i :: 0 <= i < |shifts| ==> shifts[i] == 0
    requires tail ==> |t.reference| > Samples(|marks|)
    ensures t.Verdict(marks, shifts, tail) == if tail then Some(|t.reference| - Samples(|marks|)) else Some(0)
  {
    NoSeams(t, marks, 0, tail);
    EveryoneArrived(t, marks);
    NoPause(shifts);
    assert !Skipped(shifts) && !Damaged(marks);
  }

  lemma TailRoom(t: Tape)
    requires CutOff(t)
    ensures t.TailLost(0) <==> Heard(t.reference[|t.recorded|..]) > BLOCK
    ensures t.TailLost(0) ==> |t.reference| > Samples(t.Count())
  {
    CountFits(t);
    HeardFits(t.reference[|t.recorded|..], |t.reference| - |t.recorded|);
  }

  ghost predicate AllIn(marks: seq<Mark>, from: seq<Mark>) {
    |marks| == |from| && forall k :: 0 <= k < |marks| ==> Arrives(marks[k], from[k])
  }

  /** How the answer comes about: what became of the marks, and of the tail. */
  lemma Shown(t: Tape) returns (from: seq<Mark>, marks: seq<Mark>, shifts: seq<int>)
    requires CutOff(t)
    ensures |from| == t.Count() && Fits(t, from) && AllIn(marks, from)
    ensures (shifts != [] <==> Audible(t)) && forall i :: 0 <= i < |shifts| ==> shifts[i] == 0
    ensures t.Missing() == if shifts == [] then None else t.Verdict(marks, shifts, t.TailLost(0))
  {
    WalkedMarks(t);
    from := t.Walked(t.Count()).marks;
    shifts, marks := Shifts(from), t.Resolved(from);
    assert forall i :: 0 <= i < |shifts| ==> shifts[i] == 0 by { ZeroShifts(from); }
    assert AllIn(marks, from) by {
      assert Level(from);
      ResolvedLevelAll(t, from);
      AllArrive(t, from, marks);
    }
  }

  /** The answer for a recording of the reference's first k samples: nothing if none
      of it can be placed, 0 if no more than a millisecond of sound comes after, and
      otherwise what follows the last millisecond recorded. */
  lemma CutOffAnswer(t: Tape)
    requires CutOff(t)
    ensures t.Missing() ==
            if !Audible(t) then None
            else if Heard(t.reference[|t.recorded|..]) <= BLOCK then Some(0)
            else Some(|t.reference| - Samples(t.Count()))
  {
    var from, marks, shifts := Shown(t);
    Answers(t, from, marks, shifts, t.TailLost(0), t.Missing());
  }

  lemma Answers(t: Tape, from: seq<Mark>, marks: seq<Mark>, shifts: seq<int>, tail: bool, answer: Option<int>)
    requires CutOff(t) && |from| == t.Count() && Fits(t, from) && AllIn(marks, from) && tail == t.TailLost(0)
    requires (shifts != [] <==> Audible(t)) && forall i :: 0 <= i < |shifts| ==> shifts[i] == 0
    requires answer == if shifts == [] then None else t.Verdict(marks, shifts, tail)
    ensures answer ==
            if !Audible(t) then None
            else if Heard(t.reference[|t.recorded|..]) <= BLOCK then Some(0)
            else Some(|t.reference| - Samples(t.Count()))
  {
    TailRoom(t);
    if Audible(t) {
      ArrivedMarks(t, from, marks, shifts, tail);
    }
  }

  /** A whole recording is missing nothing. */
  lemma WholeIsZero(t: Tape)
    requires t.recorded == t.reference && Audible(t)
    ensures t.Missing() == Some(0)
  {
    CutOffAnswer(t);
  }

  /** One cut off after k of n samples, with more than a millisecond of sound to come,
      is missing what it lacks, to within a millisecond. */
  lemma CutOffIsMissed(t: Tape)
    requires CutOff(t) && Audible(t) && Heard(t.reference[|t.recorded|..]) > BLOCK
    ensures var lacking := |t.reference| - |t.recorded|;
            t.Missing().Some? && lacking - BLOCK < t.Missing().value <= lacking
  {
    CutOffAnswer(t);
    CountFits(t);
  }
}
