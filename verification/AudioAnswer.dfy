/** What an answer of `missing` other than 0 says of any recording at all, and what the
    tests it rests on amount to. */
module AudioAnswer {
  import opened Common
  import opened Audio
  import opened AudioWhole
  import opened AudioSound
  import opened AudioRead
  import opened AudioSplice
  import opened AudioLosses

  // ------------------------------------------------------------------ any answer

  /** A millisecond that arrived, at a place inside the reference. */
  predicate LiesWithin(t: Tape, mark: Mark) {
    (mark.kind == Matched || mark.kind == Quiet) && mark.at + mark.shift < |t.reference|
  }

  function ArrivedIn(t: Tape, marks: seq<Mark>, m: nat): set<nat>
    requires m <= |marks|
  {
    set i: nat | i < m && LiesWithin(t, marks[i])
  }

  lemma {:induction false} ArrivedIsCounted(t: Tape, marks: seq<Mark>, m: nat)
    requires m <= |marks|
    ensures t.Arrived(marks[..m]) == |ArrivedIn(t, marks, m)|
    decreases m
  {
    if m > 0 {
      ArrivedIsCounted(t, marks, m - 1);
      assert marks[..m][..m - 1] == marks[..m - 1] && marks[..m][m - 1] == marks[m - 1];
      OneMoreIn(t, marks, m - 1);
    }
  }

  lemma OneMoreIn(t: Tape, marks: seq<Mark>, m: nat)
    requires m < |marks|
    ensures |ArrivedIn(t, marks, m + 1)| == |ArrivedIn(t, marks, m)| + (if LiesWithin(t, marks[m]) then 1 else 0)
  {
    var before, now := ArrivedIn(t, marks, m), ArrivedIn(t, marks, m + 1);
    assert m !in before;
    assert now == if LiesWithin(t, marks[m]) then before + {m} else before;
  }

  /** The match at `i`, if it is one, is further back than the last before it, by more than
      24 samples: how far. */
  function BackBy(marks: seq<Mark>, i: nat): nat
    requires i < |marks|
  {
    var back := ShiftBefore(marks, i) - marks[i].shift;
    if marks[i].kind == Matched && MatchBefore(marks, i) && back > 24 then back else 0
  }

  function BackJumps(marks: seq<Mark>, m: nat): nat
    requires m <= |marks|
  {
    if m == 0 then 0 else BackJumps(marks, m - 1) + BackBy(marks, m - 1)
  }

  predicate MatchBefore(marks: seq<Mark>, m: nat)
    requires m <= |marks|
  {
    exists j :: 0 <= j < m && marks[j].kind == Matched
  }

  lemma {:induction false} LastShift(marks: seq<Mark>, m: nat)
    requires m <= |marks|
    ensures var shifts := Shifts(marks[..m]);
            && (shifts != [] <==> MatchBefore(marks, m))
            && (shifts != [] ==> shifts[|shifts| - 1] == ShiftBefore(marks, m))
    decreases m
  {
    if m > 0 {
      LastShift(marks, m - 1);
      assert marks[..m][..m - 1] == marks[..m - 1] && marks[..m][m - 1] == marks[m - 1];
      if marks[m - 1].kind != Matched && MatchBefore(marks, m) {
        var j :| 0 <= j < m && marks[j].kind == Matched;
        assert j < m - 1;
      }
    }
  }

  lemma {:induction false} JumpsArePauses(marks: seq<Mark>, m: nat)
    requires m <= |marks|
    ensures Paused(Shifts(marks[..m])) == BackJumps(marks, m)
    decreases m
  {
    if m > 0 {
      JumpsArePauses(marks, m - 1);
      LastShift(marks, m - 1);
      assert marks[..m][..m - 1] == marks[..m - 1] && marks[..m][m - 1] == marks[m - 1];
      PausedNext(Shifts(marks[..m - 1]), marks[m - 1].shift);
    }
  }

  lemma PausedNext(before: seq<int>, shift: int)
    ensures Paused(before + [shift]) ==
            Paused(before) + (if before != [] && before[|before| - 1] - shift > 24 then before[|before| - 1] - shift else 0)
  {
    assert (before + [shift])[..|before|] == before;
  }

  lemma {:induction false} NoThreeInARow(t: Tape, marks: seq<Mark>, first: nat, tail: bool, i: nat)
    requires t.SeamsFit(marks, first, tail) && first <= i && i + 2 < |marks|
    ensures !(marks[i].kind == Seam && marks[i + 1].kind == Seam && marks[i + 2].kind == Seam)
    decreases |marks| - first
  {
    if marks[first].kind != Seam {
      if first < i {
        NoThreeInARow(t, marks, first + 1, tail, i);
      }
    } else {
      var end := RunEnd(marks, first, Seam);
      if end <= i {
        NoThreeInARow(t, marks, end, tail, i);
      }
    }
  }

  /** Any answer but 0 is the reference less the milliseconds that arrived, each counted
      once and only inside it, and every pause on top; or 1, if that leaves nothing. Those
      that match really do, and no three in a row are nothing of the reference's. */
  lemma AnswerCounts(t: Tape, answer: int) returns (marks: seq<Mark>)
    requires t.Missing() == Some(answer) && answer != 0
    ensures |marks| == t.Count()
    ensures forall i :: 0 <= i < |marks| ==> marks[i].at == t.At(i)
    ensures forall i :: 0 <= i < |marks| && marks[i].kind == Matched ==> t.Matches(t.Block(t.At(i)), t.At(i) + marks[i].shift)
    ensures forall i :: 0 <= i && i + 2 < |marks| ==>
              !(marks[i].kind == Seam && marks[i + 1].kind == Seam && marks[i + 2].kind == Seam)
    ensures var gone := Max(|t.reference| - Samples(|ArrivedIn(t, marks, |marks|)|), 0) + BackJumps(marks, |marks|);
            answer == if gone == 0 then 1 else gone
  {
    var from, shift;
    from, marks, shift := Answered(t, answer);
    SettledPlaces(t, from, marks);
    forall i | 0 <= i && i + 2 < |marks|
      ensures !(marks[i].kind == Seam && marks[i + 1].kind == Seam && marks[i + 2].kind == Seam)
    {
      NoThreeInARow(t, marks, 0, t.TailLost(shift), i);
    }
    CountedVerdict(t, marks, Shifts(from), t.TailLost(shift), answer);
  }

  lemma SettledPlaces(t: Tape, from: seq<Mark>, marks: seq<Mark>)
    requires |from| == t.Count() && (forall i :: 0 <= i < |from| ==> Told(t, from[i], t.At(i))) && AllSettled(t, marks, from, 0)
    ensures |marks| == t.Count() && Shifts(marks) == Shifts(from)
    ensures forall i :: 0 <= i < |marks| ==> marks[i].at == t.At(i)
    ensures forall i :: 0 <= i < |marks| && marks[i].kind == Matched ==> t.Matches(t.Block(t.At(i)), t.At(i) + marks[i].shift)
  {
    forall i | 0 <= i < |marks|
      ensures marks[i].at == t.At(i)
      ensures (marks[i].kind == Matched <==> from[i].kind == Matched) && (marks[i].kind == Matched ==> marks[i] == from[i])
      ensures marks[i].kind == Matched ==> t.Matches(t.Block(t.At(i)), t.At(i) + marks[i].shift)
    {
      assert Settled(t, marks[i], from[0 + i]) && Told(t, from[i], t.At(i));
    }
    SameShifts(marks, from);
  }

  lemma CountedVerdict(t: Tape, marks: seq<Mark>, shifts: seq<int>, tail: bool, answer: int)
    requires shifts != [] && shifts == Shifts(marks) && t.Verdict(marks, shifts, tail) == Some(answer) && answer != 0
    ensures var gone := Max(|t.reference| - Samples(|ArrivedIn(t, marks, |marks|)|), 0) + BackJumps(marks, |marks|);
            answer == if gone == 0 then 1 else gone
  {
    assert marks[..|marks|] == marks;
    assert t.Arrived(marks) == |ArrivedIn(t, marks, |marks|)| by { ArrivedIsCounted(t, marks, |marks|); }
    assert Paused(shifts) == BackJumps(marks, |marks|) by { JumpsArePauses(marks, |marks|); }
  }

  // ----------------------------------------------------- silence inside a millisecond

  /** The first `n` samples, or the last. */
  function Edge(block: seq<real>, n: nat, leading: bool): seq<real>
    requires n <= |block|
  {
    if leading then block[..n] else block[|block| - n..]
  }

  lemma FrontOf(block: seq<real>, n: nat)
    requires n < |block| && Silent(block[1..][..n]) && !Loud(block[0])
    ensures Silent(block[..n + 1])
  {
    assert block[..n + 1] == [block[0]] + block[1..][..n];
  }

  lemma BackOf(block: seq<real>, n: nat)
    requires n < |block| && !Loud(block[|block| - 1])
    requires var rest := block[..|block| - 1]; Silent(rest[|rest| - n..])
    ensures Silent(block[|block| - (n + 1)..])
  {
    var rest := block[..|block| - 1];
    assert block[|block| - (n + 1)..] == rest[|rest| - n..] + [block[|block| - 1]];
  }

  lemma {:induction false} HushedIsSilent(t: Tape, block: seq<real>, leading: bool)
    ensures Silent(Edge(block, t.Hushed(block, leading), leading))
    decreases |block|
  {
    if block != [] {
      if leading && !Loud(block[0]) {
        var n := t.Hushed(block[1..], leading);
        HushedIsSilent(t, block[1..], leading);
        FrontOf(block, n);
      } else if !leading && !Loud(block[|block| - 1]) {
        var rest := block[..|block| - 1];
        var n := t.Hushed(rest, leading);
        HushedIsSilent(t, rest, leading);
        BackOf(block, n);
      }
    }
  }

  /** A cut inside a millisecond is silence at its start, or its end, where the reference
      has sound, and the rest of it is the reference's. */
  lemma CutInsideHasSound(t: Tape, at: nat, shift: int, leading: bool) returns (n: nat)
    requires t.CutInside(at, shift, leading)
    ensures at + shift >= 0 && |t.Block(at)| == BLOCK && |t.There(at + shift)| == BLOCK && 0 < n <= BLOCK
    ensures Silent(Edge(t.Block(at), n, leading)) && !Silent(Edge(t.There(at + shift), n, leading))
    ensures var (rest, there) := (Edge(t.Block(at), BLOCK - n, !leading), Edge(t.There(at + shift), BLOCK - n, !leading));
            DiffTo(rest, there, BLOCK - n) < 0.05 * (if Energy(rest) < 0.000048 then 0.000048 else Energy(rest))
  {
    n := t.Hushed(t.Block(at), leading);
    assert |t.Block(at)| == BLOCK && |t.There(at + shift)| == BLOCK by { CutInsideFits(t, at, shift, leading); }
    assert Silent(Edge(t.Block(at), n, leading)) by { HushedIsSilent(t, t.Block(at), leading); }
    assert !Silent(Edge(t.There(at + shift), n, leading)) by {
      var there := t.There(at + shift);
      assert there[BLOCK - n..BLOCK] == there[|there| - n..];
    }
    RestIsClose(t, at, shift, leading, n);
  }

  lemma RestIsClose(t: Tape, at: nat, shift: int, leading: bool, n: nat)
    requires t.CutInside(at, shift, leading) && n == t.Hushed(t.Block(at), leading)
    requires |t.Block(at)| == BLOCK && |t.There(at + shift)| == BLOCK
    ensures var (rest, there) := (Edge(t.Block(at), BLOCK - n, !leading), Edge(t.There(at + shift), BLOCK - n, !leading));
            DiffTo(rest, there, BLOCK - n) < 0.05 * (if Energy(rest) < 0.000048 then 0.000048 else Energy(rest))
  {
    var block, there := t.Block(at), t.There(at + shift);
    assert there[n..BLOCK] == there[n..];
  }

  lemma CutInsideFits(t: Tape, at: nat, shift: int, leading: bool)
    requires t.CutInside(at, shift, leading)
    ensures at + shift >= 0 && |t.Block(at)| == BLOCK && |t.There(at + shift)| == BLOCK
  {
  }

  // ------------------------------------------------------------ a sound that fades

  /** Every millisecond is the reference's own, or too faint to place; the reference is whole
      milliseconds long, and something in it is audible in place. */
  ghost predicate Fades(t: Tape) {
    && |t.recorded| == |t.reference| && |t.reference| % BLOCK == 0
    && (forall i: nat {:trigger SameHere(t, i)} :: Samples(i) + BLOCK <= |t.recorded| ==>
          SameHere(t, i) || Energy(t.Block(Samples(i))) < FLOOR)
    && (exists i: nat :: Samples(i) + BLOCK <= |t.recorded| && SameHere(t, i) && Energy(t.Block(Samples(i))) >= FLOOR)
  }

  predicate SameHere(t: Tape, i: nat) {
    Samples(i) + BLOCK <= |t.recorded| && Samples(i) + BLOCK <= |t.reference|
    && t.recorded[Samples(i)..Samples(i) + BLOCK] == t.reference[Samples(i)..Samples(i) + BLOCK]
  }

  /** Millisecond `i` is silence over mostly sound, or a faint sound over one of over four
      times its energy that isn't too faint to count itself. */
  predicate FadedAway(t: Tape, i: nat)
    requires Samples(i) + BLOCK <= |t.recorded| == |t.reference|
  {
    var here, there := t.recorded[Samples(i)..Samples(i) + BLOCK], t.reference[Samples(i)..Samples(i) + BLOCK];
    && Energy(here) < 0.000048
    && if forall j :: 0 <= j < BLOCK ==> !Loud(here[j]) then Heard(there) > 24
       else Energy(there) >= 0.0000024 && Energy(there) > 4.0 * Energy(here)
  }

  lemma FadeStarts(t: Tape, i: nat)
    requires |t.recorded| == |t.reference| && |t.reference| % BLOCK == 0
    ensures Samples(t.Count()) == |t.recorded|
    ensures i < t.Count() <==> Samples(i) + BLOCK <= |t.recorded|
    ensures i < t.Count() ==> t.At(i) == Samples(i)
  {
  }

  lemma FadeBlocks(t: Tape, i: nat)
    requires |t.recorded| == |t.reference| && Samples(i) + BLOCK <= |t.recorded|
    ensures t.Block(Samples(i)) == t.recorded[Samples(i)..Samples(i) + BLOCK]
    ensures t.There(Samples(i)) == t.reference[Samples(i)..Samples(i) + BLOCK]
  {
    var there := t.There(Samples(i));
    forall j | 0 <= j < BLOCK ensures there[j] == t.reference[Samples(i)..Samples(i) + BLOCK][j] {
      assert there[j] == t.Sample(Samples(i) + j);
    }
  }

  function FadeMark(t: Tape, i: nat): Mark {
    if Energy(t.Block(Samples(i))) < FLOOR then Mark(Faint, 0, Samples(i)) else Mark(Matched, 0, Samples(i))
  }

  ghost predicate FadeWalk(t: Tape, w: Walk, j: nat) {
    j <= t.Count() && w.Walk? && |w.marks| == j && w.shift == 0 && forall i: nat :: i < j ==> w.marks[i] == FadeMark(t, i)
  }

  lemma FadeMarked(t: Tape, marks: seq<Mark>, held: nat, j: nat)
    requires Fades(t) && j < t.Count()
    ensures t.Marked(marks, 0, held, t.At(j)) == Some(FadeMark(t, j))
  {
    FadeStarts(t, j);
    if Energy(t.Block(Samples(j))) >= FLOOR {
      assert SameHere(t, j);
      Identical(t, Samples(j), Samples(j));
    }
  }

  lemma FadeStep(t: Tape, w: Walk, j: nat)
    requires Fades(t) && FadeWalk(t, w, j) && j < t.Count()
    ensures FadeWalk(t, t.Step(w, t.At(j)), j + 1)
  {
    FadeMarked(t, w.marks, HeldNow(w), j);
  }

  ghost predicate FadeTo(t: Tape, j: nat) { j <= t.Count() && FadeWalk(t, t.Walked(j), j) }

  lemma FadeOne(t: Tape, j: nat)
    requires Fades(t) && j < t.Count() && FadeTo(t, j)
    ensures FadeTo(t, j + 1)
  {
    var w, r := t.Walked(j), t.Walked(j + 1);
    assert r == t.Step(w, t.At(j)) by { WalkedNext(t, j); }
    FadeStep(t, w, j);
  }

  lemma {:induction false} FadeOn(t: Tape, j: nat)
    requires j <= t.Count() && FadeTo(t, 0)
    requires forall i: nat :: i < t.Count() && FadeTo(t, i) ==> FadeTo(t, i + 1)
    ensures FadeTo(t, j)
    decreases j
  {
    if j > 0 {
      FadeOn(t, j - 1);
    }
  }

  /** How many of the first `m` milliseconds faded away. */
  function FadedBy(t: Tape, m: nat): nat
    requires Samples(m) <= |t.recorded| == |t.reference|
  {
    if m == 0 then 0 else FadedBy(t, m - 1) + (if FadedAway(t, m - 1) then 1 else 0)
  }

  predicate FadeReadsAs(t: Tape, mark: Mark, i: nat)
    requires |t.recorded| == |t.reference|
  {
    && Samples(i) + BLOCK <= |t.recorded| && mark.at + mark.shift < |t.reference|
    && if FadedAway(t, i) then mark.kind == Lost else mark.kind == Matched || mark.kind == Quiet
  }

  lemma FadeReads(t: Tape, i: nat)
    requires Fades(t) && i < t.Count()
    ensures FadeReadsAs(t, ReadLevel(t, FadeMark(t, i)), i)
  {
    FadeStarts(t, i);
    FadeBlocks(t, i);
    assert Silent(t.Block(Samples(i))) <==> forall j :: 0 <= j < BLOCK ==> !Loud(t.Block(Samples(i))[j]);
  }

  ghost predicate FadeRead(t: Tape, read: seq<Mark>)
    requires |t.recorded| == |t.reference|
  {
    |read| == t.Count() && forall i: nat {:trigger FadeReadsAs(t, read[i], i)} :: i < |read| ==> FadeReadsAs(t, read[i], i)
  }

  lemma FadeReadAll(t: Tape, marks: seq<Mark>, read: seq<Mark>)
    requires Fades(t) && |marks| == t.Count() && ReadLevelAll(t, marks, read)
    requires forall i: nat :: i < |marks| ==> marks[i] == FadeMark(t, i)
    ensures FadeRead(t, read)
  {
    forall i: nat | i < |read| ensures FadeReadsAs(t, read[i], i) {
      FadeReads(t, i);
    }
  }

  lemma {:induction false} FadeArrived(t: Tape, read: seq<Mark>, m: nat)
    requires |t.recorded| == |t.reference| && FadeRead(t, read) && m <= |read| && Samples(|read|) <= |t.recorded|
    ensures FadedBy(t, m) <= m && t.Arrived(read[..m]) == m - FadedBy(t, m)
    decreases m
  {
    if m > 0 {
      FadeArrived(t, read, m - 1);
      assert read[..m][..m - 1] == read[..m - 1] && read[..m][m - 1] == read[m - 1];
      assert FadeReadsAs(t, read[m - 1], m - 1);
    }
  }

  lemma {:induction false} FadeLost(t: Tape, read: seq<Mark>, m: nat)
    requires |t.recorded| == |t.reference| && FadeRead(t, read) && m <= |read| && Samples(|read|) <= |t.recorded|
    ensures FadedBy(t, m) > 0 <==> exists i :: 0 <= i < m && read[i].kind == Lost
    decreases m
  {
    if m > 0 {
      FadeLost(t, read, m - 1);
      assert FadeReadsAs(t, read[m - 1], m - 1);
    }
  }

  /** What there is to say of the marks before the verdict. */
  ghost predicate FadeFacts(t: Tape, read: seq<Mark>, count: nat, lost: nat) {
    && t.SeamsFit(read, 0, false) && lost <= count && t.Arrived(read) == count - lost && (Damaged(read) <==> lost > 0)
    && Samples(count) == |t.reference|
  }

  lemma FadeTold(t: Tape, read: seq<Mark>)
    requires Fades(t) && FadeRead(t, read)
    ensures Samples(t.Count()) == |t.recorded| && FadeFacts(t, read, t.Count(), FadedBy(t, t.Count()))
  {
    FadeStarts(t, 0);
    FadeArrived(t, read, |read|);
    FadeLost(t, read, |read|);
    assert read[..|read|] == read;
    forall i: nat | i < |read| ensures read[i].kind != Seam {
      assert FadeReadsAs(t, read[i], i);
    }
    NoSeams(t, read, 0, false);
  }

  lemma FadeShown(t: Tape) returns (read: seq<Mark>, shifts: seq<int>)
    requires Fades(t)
    ensures Samples(t.Count()) == |t.recorded| && FadeFacts(t, read, t.Count(), FadedBy(t, t.Count()))
    ensures shifts != [] && forall i :: 0 <= i < |shifts| ==> shifts[i] == 0
    ensures t.Missing() == t.Verdict(read, shifts, false)
  {
    var w := t.Walked(t.Count());
    assert FadeWalk(t, w, t.Count()) by {
      forall i: nat | i < t.Count() && FadeTo(t, i) ensures FadeTo(t, i + 1) {
        FadeOne(t, i);
      }
      FadeOn(t, t.Count());
    }
    var marks := w.marks;
    read, shifts := t.Resolved(marks), Shifts(marks);
    assert Level(marks) && shifts != [] && forall i :: 0 <= i < |shifts| ==> shifts[i] == 0 by { FadeShifts(t, marks); }
    FadeStarts(t, 0);
    assert FadeFacts(t, read, t.Count(), FadedBy(t, t.Count())) by {
      ResolvedLevelAll(t, marks);
      FadeReadAll(t, marks, read);
      FadeTold(t, read);
    }
    assert !t.TailLost(w.shift) by { TailArrived(t, 0); }
  }

  lemma FadeShifts(t: Tape, marks: seq<Mark>)
    requires Fades(t) && |marks| == t.Count() && forall i: nat :: i < |marks| ==> marks[i] == FadeMark(t, i)
    ensures Level(marks) && Shifts(marks) != [] && forall i :: 0 <= i < |Shifts(marks)| ==> Shifts(marks)[i] == 0
  {
    var i: nat :| Samples(i) + BLOCK <= |t.recorded| && SameHere(t, i) && Energy(t.Block(Samples(i))) >= FLOOR;
    FadeStarts(t, i);
    assert Straight(marks);
    ZeroShifts(marks);
    assert marks[i].kind == Matched;
  }

  /** A recording of which every millisecond is the reference's or faint is missing exactly
      the milliseconds that faded away. */
  lemma FadeIsMissed(t: Tape)
    requires Fades(t)
    ensures Samples(t.Count()) == |t.recorded| && t.Missing() == Some(Samples(FadedBy(t, t.Count())))
  {
    var read, shifts := FadeShown(t);
    FadeAnswer(t, read, shifts, t.Count(), FadedBy(t, t.Count()), t.Missing());
  }

  lemma FadeAnswer(t: Tape, read: seq<Mark>, shifts: seq<int>, count: nat, lost: nat, answer: Option<int>)
    requires FadeFacts(t, read, count, lost) && shifts != [] && forall i :: 0 <= i < |shifts| ==> shifts[i] == 0
    requires answer == t.Verdict(read, shifts, false)
    ensures answer == Some(Samples(lost))
  {
    LevelAnswer(t, read, shifts, count, lost, answer);
  }
}
