/**
 What `missing` answers for each kind of loss it is meant to measure: the sound skips
 ahead, silence takes the place of part of it, or it pauses and goes on; and that a
 crackle is none of these.
 */
module AudioLosses {
  import opened Common
  import opened Audio
  import opened AudioWhole
  import opened AudioSound
  import opened AudioRead
  import opened AudioSplice

  // ---------------------------------------------------------- counting what is silenced

  /** None of the marks from `lo` to `hi` is in place of sound, read at `shift`. */
  ghost predicate NoneLost(t: Tape, marks: seq<Mark>, lo: nat, hi: nat, shift: int)
    requires hi <= |marks|
  {
    forall i {:trigger t.Silenced(marks[i].at, shift)} :: lo <= i < hi ==> !t.Silenced(marks[i].at, shift)
  }

  lemma {:induction false} SumParts(flags: seq<bool>, k: nat)
    requires k <= |flags|
    ensures Sum(flags) == Sum(flags[..k]) + Sum(flags[k..])
    decreases |flags|
  {
    var n := |flags| - 1;
    if k <= n {
      SumParts(flags[..n], k);
      assert flags[..n][..k] == flags[..k] && flags[..n][k..] == flags[k..][..n - k] && flags[k..][n - k] == flags[n];
    } else {
      assert flags[..k] == flags && flags[k..] == [];
    }
  }

  lemma {:induction false} SumZero(flags: seq<bool>)
    ensures Sum(flags) == 0 <==> forall i :: 0 <= i < |flags| ==> !flags[i]
  {
    if flags != [] {
      SumZero(flags[..|flags| - 1]);
    }
  }

  lemma LeastSplitIsLeast(e: seq<bool>, l: seq<bool>, j: nat)
    requires j <= |e| == |l|
    ensures var s := LeastSplit(e, l);
            s <= |e| && SplitCost(e, l, s) <= SplitCost(e, l, j) && (j < s ==> SplitCost(e, l, s) < SplitCost(e, l, j))
  {
    var costs := seq(|e| + 1, k requires 0 <= k <= |e| => SplitCost(e, l, k));
    SplitsWhereLeastIsLost(costs, j);
  }

  /** With nothing lost early before `a`, and nothing late from `b` on, the split is no
      later than `b`, and wherever it is nothing late is lost between it and `a`. */
  lemma LeastSplitLies(e: seq<bool>, l: seq<bool>, a: nat, b: nat)
    requires a <= b <= |e| == |l| && (forall i :: 0 <= i < a ==> !e[i]) && (forall i :: b <= i < |l| ==> !l[i])
    ensures var s := LeastSplit(e, l); s <= b && forall i :: s <= i < a ==> !l[i]
  {
    var s := LeastSplit(e, l);
    LeastSplitIsLeast(e, l, a);
    LeastSplitIsLeast(e, l, b);
    if b < s {
      NotAfter(e, l, b, s);
    } else if s < a {
      NotBefore(e, l, a, s);
    }
  }

  lemma NotAfter(e: seq<bool>, l: seq<bool>, b: nat, s: nat)
    requires b < s <= |e| == |l| && forall i :: b <= i < |l| ==> !l[i]
    ensures SplitCost(e, l, b) <= SplitCost(e, l, s)
  {
    SumZero(l[b..]);
    SumParts(e[..s], b);
    assert e[..s][..b] == e[..b];
  }

  lemma NotBefore(e: seq<bool>, l: seq<bool>, a: nat, s: nat)
    requires s < a <= |e| == |l| && (forall i :: 0 <= i < a ==> !e[i]) && SplitCost(e, l, s) <= SplitCost(e, l, a)
    ensures forall i :: s <= i < a ==> !l[i]
  {
    SumZero(e[..a]);
    SumParts(l[s..], a - s);
    assert l[s..][a - s..] == l[a..] && l[s..][..a - s] == l[s..a];
    SumZero(l[s..a]);
    forall i | s <= i < a ensures !l[i] {
      assert l[i] == l[s..a][i - s];
    }
  }

  /** A stretch that reads as it should at `early` up to `a` and at `late` from `b` on is
      split no later than `b`, and wherever it is split no later mark before `a` is lost. */
  lemma SplitFits(t: Tape, marks: seq<Mark>, first: nat, a: nat, b: nat, end: nat, early: int, late: int)
    requires first <= a <= b <= end <= |marks|
    requires NoneLost(t, marks, first, a, early) && NoneLost(t, marks, b, end, late)
    ensures var s := t.Split(marks, first, end, early, late);
            first + s <= b && NoneLost(t, marks, first + s, a, late)
  {
    var e, l := t.LostAt(marks, first, end, early), t.LostAt(marks, first, end, late);
    forall i | 0 <= i < a - first ensures !e[i] {
      assert !t.Silenced(marks[first + i].at, early);
    }
    forall i | b - first <= i < |l| ensures !l[i] {
      assert !t.Silenced(marks[first + i].at, late);
    }
    LeastSplitLies(e, l, a - first, b - first);
    var s := t.Split(marks, first, end, early, late);
    forall i | first + s <= i < a ensures !t.Silenced(marks[i].at, late) {
      assert !l[i - first];
    }
  }

  // ------------------------------------------------- marks on either side of a cut

  /** The marks of a recording cut where the sound goes on at another shift. */
  ghost predicate Bent(t: Tape, cut: Cut, f: nat, marks: seq<Mark>) {
    && Spliced(t, cut) && Turn(cut) != 0 && Tells(t, cut, f) && |marks| == t.Count()
    && forall i :: 0 <= i < |marks| ==> Expected(t, cut, marks[i], i)
  }

  lemma BentAt(t: Tape, cut: Cut, f: nat, marks: seq<Mark>, i: nat)
    requires Bent(t, cut, f, marks) && i < |marks|
    ensures marks[i].at == t.At(i) && (marks[i].kind == Matched || marks[i].kind == Faint)
    ensures marks[i].kind == Matched <==> LoudAt(t, i)
    ensures marks[i].kind == Matched ==> marks[i].shift == TrueShift(cut, i) && (i < cut.k || i >= f)
  {
    assert Expected(t, cut, marks[i], i);
  }

  /** Matches up to `k` are in place, none is from there to `f`, and the one at `f` and all
      later ones are at the turn. */
  ghost predicate Sided(marks: seq<Mark>, k: nat, f: nat, turn: int) {
    && k <= f < |marks| && marks[f].kind == Matched
    && forall i :: 0 <= i < |marks| ==>
         && (marks[i].kind == Matched || marks[i].kind == Faint)
         && (marks[i].kind == Matched ==> (i < k && marks[i].shift == 0) || (i >= f && marks[i].shift == turn))
  }

  lemma BentIsSided(t: Tape, cut: Cut, f: nat, marks: seq<Mark>)
    requires Bent(t, cut, f, marks)
    ensures Sided(marks, cut.k, f, Turn(cut))
  {
    forall i | 0 <= i < |marks|
      ensures marks[i].kind == Matched || marks[i].kind == Faint
      ensures marks[i].kind == Matched ==> (i < cut.k && marks[i].shift == 0) || (i >= f && marks[i].shift == Turn(cut))
    {
      BentAt(t, cut, f, marks, i);
    }
    BentAt(t, cut, f, marks, f);
  }

  lemma {:induction false} SidedBefore(marks: seq<Mark>, k: nat, f: nat, turn: int, index: nat)
    requires Sided(marks, k, f, turn) && index <= |marks|
    ensures ShiftBefore(marks, index) == if index > f then turn else 0
    decreases index
  {
    if index > 0 {
      SidedBefore(marks, k, f, turn, index - 1);
    }
  }

  lemma {:induction false} SidedAfter(marks: seq<Mark>, k: nat, f: nat, turn: int, index: nat)
    requires Sided(marks, k, f, turn) && f < index
    ensures ShiftAfter(marks, index).Some? ==> ShiftAfter(marks, index).value == turn
    decreases |marks| - index
  {
    if index < |marks| {
      SidedAfter(marks, k, f, turn, index + 1);
    }
  }

  /** A maximal faint stretch lies before the cut, or crosses it, or lies after it. */
  lemma StretchSides(marks: seq<Mark>, k: nat, f: nat, turn: int, first: nat, end: nat)
    requires Sided(marks, k, f, turn) && first < |marks| && marks[first].kind == Faint && end == RunEnd(marks, first, Faint)
    requires first == 0 || marks[first - 1].kind != Faint
    ensures first > f || (end < k && end < |marks| && marks[end].kind == Matched) || (end == f && first <= k)
  {
  }

  /** Outside the gap nothing is in place of sound. */
  lemma ReadsTruly(t: Tape, cut: Cut, i: nat)
    requires Spliced(t, cut) && i < t.Count() && !InGap(cut, i)
    ensures !t.Silenced(t.At(i), TrueShift(cut, i))
  {
    OutsideIs(t, cut, i);
    var here := t.Block(t.At(i));
    if Silent(here) {
      NothingHeard(here, BLOCK);
    }
  }

  /** How a mark has to come out: outside the gap as arrived, inside it as silence. */
  ghost predicate Lands(t: Tape, cut: Cut, mark: Mark, i: nat)
    requires i < t.Count()
  {
    && mark.at == t.At(i) && (mark.kind == Matched || mark.kind == Quiet || mark.kind == Lost)
    && (!InGap(cut, i) ==> mark.kind != Lost && mark.at + mark.shift < |t.reference|)
  }

  lemma ReadLands(t: Tape, cut: Cut, f: nat, marks: seq<Mark>, i: nat, shift: int)
    requires Bent(t, cut, f, marks) && i < |marks| && (shift == 0 || shift == Turn(cut))
    requires InGap(cut, i) || shift == TrueShift(cut, i) || (i < cut.k && !t.Silenced(marks[i].at, shift))
    ensures Lands(t, cut, t.Read(marks[i], shift), i)
  {
    BentAt(t, cut, f, marks, i);
    if !InGap(cut, i) {
      ReadsTruly(t, cut, i);
      OutsideIs(t, cut, i);
      Lies(t, cut, i);
    }
  }

  /** The faint stretch the cut is in, or that ends where the sound goes on. */
  lemma CrossingLands(t: Tape, cut: Cut, f: nat, marks: seq<Mark>, first: nat, j: nat)
    requires Bent(t, cut, f, marks) && first <= cut.k && first <= j < f
    ensures Lands(t, cut, t.Stretch(marks, first, f)[j - first], j)
  {
    var turn := Turn(cut);
    assert cut.k + cut.p <= f by { TellsOutside(t, cut, f); }
    assert ShiftBefore(marks, first) == 0 && ShiftAfter(marks, f) == Some(turn) by {
      BentIsSided(t, cut, f, marks);
      SidedBefore(marks, cut.k, f, turn, first);
    }
    var s := t.Split(marks, first, f, 0, turn);
    var shift := if j - first < s then 0 else turn;
    assert t.Stretch(marks, first, f)[j - first] == t.Read(marks[j], shift) by { StretchIs(t, marks, first, f, j, 0, turn); }
    assert InGap(cut, j) || shift == TrueShift(cut, j) || (j < cut.k && !t.Silenced(marks[j].at, shift)) by {
      CrossingSplits(t, cut, f, marks, first);
    }
    ReadLands(t, cut, f, marks, j, shift);
  }

  lemma CrossingSplits(t: Tape, cut: Cut, f: nat, marks: seq<Mark>, first: nat)
    requires Bent(t, cut, f, marks) && first <= cut.k && cut.k + cut.p <= f
    ensures var s := t.Split(marks, first, f, 0, Turn(cut));
            first + s <= cut.k + cut.p && NoneLost(t, marks, first + s, cut.k, Turn(cut))
  {
    forall i | first <= i < cut.k ensures !t.Silenced(marks[i].at, 0) {
      BentAt(t, cut, f, marks, i);
      ReadsTruly(t, cut, i);
    }
    forall i | cut.k + cut.p <= i < f ensures !t.Silenced(marks[i].at, Turn(cut)) {
      BentAt(t, cut, f, marks, i);
      ReadsTruly(t, cut, i);
    }
    SplitFits(t, marks, first, cut.k, cut.k + cut.p, f, 0, Turn(cut));
  }

  lemma LateLands(t: Tape, cut: Cut, f: nat, marks: seq<Mark>, first: nat, end: nat, j: nat)
    requires Bent(t, cut, f, marks) && f < first <= j < end <= |marks|
    ensures Lands(t, cut, t.Stretch(marks, first, end)[j - first], j)
  {
    var turn := Turn(cut);
    assert t.Stretch(marks, first, end)[j - first] == t.Read(marks[j], turn) by {
      BentIsSided(t, cut, f, marks);
      SidedBefore(marks, cut.k, f, turn, first);
      SidedAfter(marks, cut.k, f, turn, end);
      StretchIs(t, marks, first, end, j, turn, turn);
    }
    ReadLands(t, cut, f, marks, j, turn);
  }

  lemma EarlyLands(t: Tape, cut: Cut, f: nat, marks: seq<Mark>, first: nat, end: nat, j: nat)
    requires Bent(t, cut, f, marks) && first <= j < end < cut.k && end < |marks| && marks[end].kind == Matched
    ensures Lands(t, cut, t.Stretch(marks, first, end)[j - first], j)
  {
    assert t.Stretch(marks, first, end)[j - first] == t.Read(marks[j], 0) by {
      BentIsSided(t, cut, f, marks);
      SidedBefore(marks, cut.k, f, Turn(cut), first);
      StretchIs(t, marks, first, end, j, 0, 0);
    }
    ReadLands(t, cut, f, marks, j, 0);
  }

  lemma StretchLands(t: Tape, cut: Cut, f: nat, marks: seq<Mark>, first: nat, end: nat, j: nat)
    requires Bent(t, cut, f, marks) && first < |marks| && marks[first].kind == Faint && end == RunEnd(marks, first, Faint)
    requires (first == 0 || marks[first - 1].kind != Faint) && first <= j < end
    ensures Lands(t, cut, t.Stretch(marks, first, end)[j - first], j)
  {
    assert first > f || (end < cut.k && end < |marks| && marks[end].kind == Matched) || (end == f && first <= cut.k) by {
      BentIsSided(t, cut, f, marks);
      StretchSides(marks, cut.k, f, Turn(cut), first, end);
    }
    if first > f {
      LateLands(t, cut, f, marks, first, end, j);
    } else if end < cut.k {
      EarlyLands(t, cut, f, marks, first, end, j);
    } else {
      CrossingLands(t, cut, f, marks, first, j);
    }
  }

  /** Everything that was recorded of the sound is read as arrived. */
  lemma ReadLandsAll(t: Tape, cut: Cut, f: nat, marks: seq<Mark>, read: seq<Mark>)
    requires Bent(t, cut, f, marks) && AllRead(t, marks, read)
    ensures AllLand(t, cut, read)
  {
    assert |read| == t.Count();
    forall j: nat | j < |read| ensures Lands(t, cut, read[j], j) {
      var start: nat :| ReadIn(t, marks, start, j, read[j]);
      ReadInLands(t, cut, f, marks, start, j, read[j]);
    }
  }

  lemma ReadInLands(t: Tape, cut: Cut, f: nat, marks: seq<Mark>, start: nat, j: nat, mark: Mark)
    requires Bent(t, cut, f, marks) && j < |marks| && ReadIn(t, marks, start, j, mark)
    ensures Lands(t, cut, mark, j)
  {
    if marks[j].kind == Faint {
      StretchLands(t, cut, f, marks, start, RunEnd(marks, start, Faint), j);
    } else {
      BentAt(t, cut, f, marks, j);
      MatchedLands(t, cut, f, marks, j);
    }
  }

  lemma MatchedLands(t: Tape, cut: Cut, f: nat, marks: seq<Mark>, i: nat)
    requires Bent(t, cut, f, marks) && i < |marks| && marks[i].kind == Matched
    ensures Lands(t, cut, marks[i], i)
  {
    BentAt(t, cut, f, marks, i);
    if !InGap(cut, i) {
      OutsideIs(t, cut, i);
    }
  }

  // ------------------------------------------------------------ what they amount to

  ghost predicate AllLand(t: Tape, cut: Cut, marks: seq<Mark>) {
    |marks| == t.Count() && forall i :: 0 <= i < |marks| ==> Lands(t, cut, marks[i], i)
  }

  function GapWithin(cut: Cut, m: nat): nat {
    if m <= cut.k then 0 else if m <= cut.k + cut.p then m - cut.k else cut.p
  }

  lemma {:induction false} MostArrived(t: Tape, cut: Cut, marks: seq<Mark>, m: nat)
    requires AllLand(t, cut, marks) && m <= |marks|
    ensures m - GapWithin(cut, m) <= t.Arrived(marks[..m]) <= m
    decreases m
  {
    if m > 0 {
      MostArrived(t, cut, marks, m - 1);
      assert marks[..m][..m - 1] == marks[..m - 1] && marks[..m][m - 1] == marks[m - 1];
      assert Lands(t, cut, marks[m - 1], m - 1);
    }
  }

  /** The first `z` matches are in place, and all later ones at the turn. */
  ghost predicate Turns(shifts: seq<int>, z: nat, turn: int) {
    && z <= |shifts| && (forall i :: 0 <= i < z ==> shifts[i] == 0) && forall i :: z <= i < |shifts| ==> shifts[i] == turn
  }

  ghost predicate SoundBefore(t: Tape, cut: Cut) { exists i :: 0 <= i < cut.k && i < t.Count() && LoudAt(t, i) }

  lemma {:induction false} ShiftsTurn(marks: seq<Mark>, k: nat, f: nat, turn: int, m: nat) returns (z: nat)
    requires Sided(marks, k, f, turn) && m <= |marks|
    ensures Turns(Shifts(marks[..m]), z, turn) && (m > f <==> z < |Shifts(marks[..m])|)
    ensures z > 0 <==> exists i :: 0 <= i < k && i < m && marks[i].kind == Matched
    decreases m
  {
    if m == 0 {
      z := 0;
    } else {
      z := ShiftsTurn(marks, k, f, turn, m - 1);
      assert marks[..m][..m - 1] == marks[..m - 1] && marks[..m][m - 1] == marks[m - 1];
      if marks[m - 1].kind == Matched && m - 1 < k {
        z := z + 1;
      }
    }
  }

  lemma {:induction false} PausedOnce(shifts: seq<int>, z: nat, turn: int, m: nat)
    requires Turns(shifts, z, turn) && m <= |shifts|
    ensures Paused(shifts[..m]) == if 0 < z < m && -turn > SKIP then -turn else 0
    decreases m
  {
    if m >= 2 {
      PausedOnce(shifts, z, turn, m - 1);
      assert shifts[..m][..m - 1] == shifts[..m - 1];
    }
  }

  lemma NoSeamsLanded(t: Tape, cut: Cut, marks: seq<Mark>, tail: bool)
    requires AllLand(t, cut, marks)
    ensures t.SeamsFit(marks, 0, tail)
  {
    assert forall i :: 0 <= i < |marks| ==> Lands(t, cut, marks[i], i);
    NoSeams(t, marks, 0, tail);
  }

  lemma TurnSkips(shifts: seq<int>, z: nat, turn: int)
    requires Turns(shifts, z, turn) && z < |shifts| && (turn >= 48 || (turn <= -48 && z > 0))
    ensures Skipped(shifts)
  {
    if z > 0 {
      assert Gap(shifts[z - 1], shifts[z]) > SKIP;
    }
  }

  /** The verdict on such marks: what did not arrive, and the pause. */
  lemma BentVerdict(t: Tape, cut: Cut, marks: seq<Mark>, shifts: seq<int>, z: nat, turn: int)
    requires AllLand(t, cut, marks) && Turns(shifts, z, turn) && z < |shifts|
    requires turn >= 48 || (turn <= -48 && z > 0)
    ensures var gone := Max(|t.reference| - Samples(t.Arrived(marks)), 0) + (if turn < 0 then -turn else 0);
            t.Verdict(marks, shifts, false) == Some(if gone == 0 then 1 else gone)
  {
    assert t.SeamsFit(marks, 0, false) by { NoSeamsLanded(t, cut, marks, false); }
    assert Skipped(shifts) by { TurnSkips(shifts, z, turn); }
    assert Paused(shifts) == (if turn < 0 then -turn else 0) by {
      PausedOnce(shifts, z, turn, |shifts|);
      assert shifts[..|shifts|] == shifts;
    }
  }

  lemma TailArrived(t: Tape, shift: int)
    requires |t.recorded| + shift == |t.reference|
    ensures !t.TailLost(shift)
  {
    assert t.reference[|t.recorded| + shift..] == [];
  }

  lemma BentShifts(t: Tape, cut: Cut, f: nat, marks: seq<Mark>) returns (z: nat)
    requires Bent(t, cut, f, marks)
    ensures Turns(Shifts(marks), z, Turn(cut)) && z < |Shifts(marks)| && (z > 0 <==> SoundBefore(t, cut))
  {
    BentIsSided(t, cut, f, marks);
    z := ShiftsTurn(marks, cut.k, f, Turn(cut), |marks|);
    assert marks[..|marks|] == marks;
    if i :| 0 <= i < cut.k && i < |marks| && marks[i].kind == Matched {
      BentAt(t, cut, f, marks, i);
    }
    if i :| 0 <= i < cut.k && i < t.Count() && LoudAt(t, i) {
      BentAt(t, cut, f, marks, i);
    }
  }

  /** How the answer comes about: everything recorded of the sound lands, and the shifts
      turn once. */
  lemma BentShown(t: Tape, cut: Cut, f: nat) returns (marks: seq<Mark>, shifts: seq<int>, z: nat)
    requires Spliced(t, cut) && Turn(cut) != 0 && Tells(t, cut, f)
    ensures AllLand(t, cut, marks) && Turns(shifts, z, Turn(cut)) && z < |shifts| && (z > 0 <==> SoundBefore(t, cut))
    ensures t.Missing() == t.Verdict(marks, shifts, false)
  {
    var w, n := t.Walked(t.Count()), t.Count();
    assert Walks(t, cut, f, w, n) by { WalkIs(t, cut, f); }
    marks, shifts := t.Resolved(w.marks), Shifts(w.marks);
    assert Bent(t, cut, f, w.marks);
    z := BentShifts(t, cut, f, w.marks);
    assert AllLand(t, cut, marks) by {
      ResolvedReads(t, w.marks, marks);
      ReadLandsAll(t, cut, f, w.marks, marks);
    }
    assert !t.TailLost(w.shift) by {
      Lengths(t, cut);
      TailArrived(t, w.shift);
    }
  }

  /** A sound that pauses, for whole milliseconds, and carries on where it stopped is
      missing just as long as the pause. */
  lemma PauseIsMissed(t: Tape, cut: Cut, f: nat)
    requires Spliced(t, cut) && cut.p > 0 && cut.g == 0 && SoundBefore(t, cut) && Tells(t, cut, f)
    ensures t.Missing() == Some(Samples(cut.p))
  {
    var marks, shifts, z := BentShown(t, cut, f);
    PauseAnswer(t, cut, marks, shifts, z, t.Missing());
  }

  lemma PauseAnswer(t: Tape, cut: Cut, marks: seq<Mark>, shifts: seq<int>, z: nat, answer: Option<int>)
    requires Spliced(t, cut) && cut.p > 0 && cut.g == 0 && AllLand(t, cut, marks)
    requires Turns(shifts, z, Turn(cut)) && 0 < z < |shifts| && answer == t.Verdict(marks, shifts, false)
    ensures answer == Some(Samples(cut.p))
  {
    assert Samples(t.Arrived(marks)) >= |t.reference| by {
      MostArrived(t, cut, marks, |marks|);
      assert marks[..|marks|] == marks;
      Lengths(t, cut);
      CountFits(t);
    }
    BentVerdict(t, cut, marks, shifts, z, Turn(cut));
  }

  /** A sound that skips whole milliseconds is missing what it skipped, to within the last,
      overlapping millisecond; exactly that if the reference is whole milliseconds long. */
  lemma SkipIsMissed(t: Tape, cut: Cut, f: nat)
    requires Spliced(t, cut) && cut.p == 0 && cut.g > 0 && Tells(t, cut, f)
    ensures t.Missing() == Some(|t.reference| - Samples(t.Count()))
    ensures Samples(cut.g) - BLOCK < |t.reference| - Samples(t.Count()) <= Samples(cut.g)
    ensures |t.reference| % BLOCK == 0 ==> |t.reference| - Samples(t.Count()) == Samples(cut.g)
  {
    var marks, shifts, z := BentShown(t, cut, f);
    SkipAnswer(t, cut, marks, shifts, z, t.Missing());
  }

  lemma SkipAnswer(t: Tape, cut: Cut, marks: seq<Mark>, shifts: seq<int>, z: nat, answer: Option<int>)
    requires Spliced(t, cut) && cut.p == 0 && cut.g > 0 && AllLand(t, cut, marks)
    requires Turns(shifts, z, Turn(cut)) && z < |shifts| && answer == t.Verdict(marks, shifts, false)
    ensures answer == Some(|t.reference| - Samples(t.Count()))
    ensures Samples(cut.g) - BLOCK < |t.reference| - Samples(t.Count()) <= Samples(cut.g)
    ensures |t.reference| % BLOCK == 0 ==> |t.reference| - Samples(t.Count()) == Samples(cut.g)
  {
    assert t.Arrived(marks) == t.Count() by {
      MostArrived(t, cut, marks, |marks|);
      assert marks[..|marks|] == marks;
    }
    assert Samples(cut.g) - BLOCK < |t.reference| - Samples(t.Count()) <= Samples(cut.g) by {
      Lengths(t, cut);
      CountFits(t);
    }
    BentVerdict(t, cut, marks, shifts, z, Turn(cut));
  }

  // ---------------------------------------------- silence in the place of sound

  /** How many of the milliseconds before `m` are silence where the reference is mostly sound. */
  function SilencedBy(t: Tape, cut: Cut, m: nat): nat {
    if m == 0 then 0
    else SilencedBy(t, cut, m - 1) + (if SilencedAt(t, cut, m - 1) then 1 else 0)
  }

  /** A recording with silence put in just where as much sound was left out. */
  ghost predicate Covered(t: Tape, cut: Cut, marks: seq<Mark>) {
    && Spliced(t, cut) && cut.p == cut.g && |marks| == t.Count()
    && forall i :: 0 <= i < |marks| ==> Expected(t, cut, marks[i], i)
  }

  lemma CoveredAt(t: Tape, cut: Cut, marks: seq<Mark>, i: nat)
    requires Covered(t, cut, marks) && i < |marks|
    ensures marks[i] == if LoudAt(t, i) then Mark(Matched, 0, t.At(i)) else Mark(Faint, 0, t.At(i))
    ensures t.At(i) < |t.reference|
  {
    assert Expected(t, cut, marks[i], i);
    Lengths(t, cut);
  }

  lemma CoveredIsLevel(t: Tape, cut: Cut, marks: seq<Mark>)
    requires Covered(t, cut, marks)
    ensures Level(marks) && Straight(marks)
  {
    forall i | 0 <= i < |marks| ensures marks[i].shift == 0 && (marks[i].kind == Matched || marks[i].kind == Faint) {
      CoveredAt(t, cut, marks, i);
    }
  }

  predicate SilencedAt(t: Tape, cut: Cut, i: nat) { InGap(cut, i) && Heard(t.There(Samples(i))) > BLOCK / 2 }

  predicate ReadsAs(t: Tape, cut: Cut, mark: Mark, i: nat) {
    && mark.at + mark.shift < |t.reference|
    && if SilencedAt(t, cut, i) then mark.kind == Lost else mark.kind == Matched || mark.kind == Quiet
  }

  /** How it is read: silence is lost where the reference is mostly sound, and all else arrived. */
  lemma CoveredReads(t: Tape, cut: Cut, marks: seq<Mark>, i: nat)
    requires Covered(t, cut, marks) && i < |marks|
    ensures ReadsAs(t, cut, ReadLevel(t, marks[i]), i)
  {
    CoveredAt(t, cut, marks, i);
    if InGap(cut, i) {
      GapIs(t, cut, i);
    } else {
      ReadsTruly(t, cut, i);
    }
  }

  ghost predicate AllReadAs(t: Tape, cut: Cut, read: seq<Mark>) { forall i: nat :: i < |read| ==> ReadsAs(t, cut, read[i], i) }

  lemma CoveredAllRead(t: Tape, cut: Cut, marks: seq<Mark>, read: seq<Mark>)
    requires Covered(t, cut, marks) && ReadLevelAll(t, marks, read)
    ensures AllReadAs(t, cut, read)
  {
    forall i: nat | i < |read| ensures ReadsAs(t, cut, read[i], i) {
      CoveredReads(t, cut, marks, i);
    }
  }

  lemma {:induction false} CoveredArrived(t: Tape, cut: Cut, read: seq<Mark>, m: nat)
    requires AllReadAs(t, cut, read) && m <= |read|
    ensures SilencedBy(t, cut, m) <= m && t.Arrived(read[..m]) == m - SilencedBy(t, cut, m)
    decreases m
  {
    if m > 0 {
      CoveredArrived(t, cut, read, m - 1);
      assert read[..m][..m - 1] == read[..m - 1] && read[..m][m - 1] == read[m - 1];
      assert ReadsAs(t, cut, read[m - 1], m - 1);
    }
  }

  lemma CoveredDamage(t: Tape, cut: Cut, read: seq<Mark>)
    requires AllReadAs(t, cut, read)
    ensures Damaged(read) <==> SilencedBy(t, cut, |read|) > 0
    ensures forall i :: 0 <= i < |read| ==> read[i].kind != Seam
  {
    forall i: nat | i < |read| ensures read[i].kind != Seam && (read[i].kind == Lost <==> SilencedAt(t, cut, i)) {
      assert ReadsAs(t, cut, read[i], i);
    }
    SomeSilenced(t, cut, |read|);
    if SilencedBy(t, cut, |read|) > 0 {
      var i: nat :| i < |read| && SilencedAt(t, cut, i);
      assert read[i].kind == Lost;
    }
  }

  lemma {:induction false} SomeSilenced(t: Tape, cut: Cut, m: nat)
    ensures SilencedBy(t, cut, m) > 0 <==> exists i: nat :: i < m && SilencedAt(t, cut, i)
  {
    if m > 0 {
      SomeSilenced(t, cut, m - 1);
    }
  }

  /** The answer when silence takes the place of `p` milliseconds of the sound: 0 if it was
      silence there anyway, and otherwise what it silenced, less what the last, overlapping
      millisecond has twice. */
  lemma DropoutIsMissed(t: Tape, cut: Cut)
    requires Spliced(t, cut) && cut.p == cut.g && exists i :: 0 <= i < t.Count() && LoudAt(t, i)
    ensures t.Missing() == DropoutAnswer(t, SilencedBy(t, cut, t.Count()))
  {
    var read, shifts := CoveredShown(t, cut);
    DropoutTold(t, read, shifts, SilencedBy(t, cut, t.Count()), t.Missing());
  }

  ghost predicate CoveredSays(t: Tape, read: seq<Mark>, lost: nat) {
    && t.SeamsFit(read, 0, false) && lost <= t.Count() && t.Arrived(read) == t.Count() - lost && (Damaged(read) <==> lost > 0)
    && 0 <= Twice(t) < BLOCK
  }

  lemma DropoutTold(t: Tape, read: seq<Mark>, shifts: seq<int>, lost: nat, answer: Option<int>)
    requires CoveredSays(t, read, lost) && shifts != [] && forall i :: 0 <= i < |shifts| ==> shifts[i] == 0
    requires answer == t.Verdict(read, shifts, false)
    ensures answer == DropoutAnswer(t, lost)
  {
    LevelAnswer(t, read, shifts, t.Count(), lost, answer);
  }

  function DropoutAnswer(t: Tape, lost: nat): Option<int> { if lost == 0 then Some(0) else Some(Samples(lost) - Twice(t)) }

  /** How much of a recording as long as its reference the last millisecond has twice:
      nothing, if that is whole milliseconds long. */
  function Twice(t: Tape): int { Samples(t.Count()) - |t.reference| }

  lemma CoveredShown(t: Tape, cut: Cut) returns (read: seq<Mark>, shifts: seq<int>)
    requires Spliced(t, cut) && cut.p == cut.g && exists i :: 0 <= i < t.Count() && LoudAt(t, i)
    ensures CoveredSays(t, read, SilencedBy(t, cut, t.Count()))
    ensures shifts != [] && forall i :: 0 <= i < |shifts| ==> shifts[i] == 0
    ensures t.Missing() == t.Verdict(read, shifts, false)
  {
    var w := t.Walked(t.Count());
    assert Walks(t, cut, 0, w, t.Count()) by { WalkIs(t, cut, 0); }
    var marks := w.marks;
    shifts, read := Shifts(marks), t.Resolved(marks);
    assert Covered(t, cut, marks);
    assert Level(marks) && Straight(marks) by { CoveredIsLevel(t, cut, marks); }
    assert shifts != [] && forall i :: 0 <= i < |shifts| ==> shifts[i] == 0 by {
      ZeroShifts(marks);
      var i :| 0 <= i < t.Count() && LoudAt(t, i);
      CoveredAt(t, cut, marks, i);
    }
    assert ReadLevelAll(t, marks, read) by { ResolvedLevelAll(t, marks); }
    assert CoveredSays(t, read, SilencedBy(t, cut, t.Count())) by {
      CoveredFacts(t, cut, marks, read);
      CoveredCount(t, cut);
    }
    assert !t.TailLost(w.shift) by {
      Lengths(t, cut);
      TailArrived(t, w.shift);
    }
  }

  lemma CoveredCount(t: Tape, cut: Cut)
    requires Spliced(t, cut) && cut.p == cut.g
    ensures 0 <= Twice(t) < BLOCK && (|t.reference| % BLOCK == 0 ==> Twice(t) == 0)
  {
    Lengths(t, cut);
    CountFits(t);
  }

  lemma CoveredFacts(t: Tape, cut: Cut, marks: seq<Mark>, read: seq<Mark>)
    requires Covered(t, cut, marks) && ReadLevelAll(t, marks, read)
    ensures t.SeamsFit(read, 0, false)
    ensures var lost := SilencedBy(t, cut, t.Count());
            lost <= t.Count() && t.Arrived(read) == t.Count() - lost && (Damaged(read) <==> lost > 0)
  {
    CoveredAllRead(t, cut, marks, read);
    CoveredArrived(t, cut, read, |read|);
    assert read[..|read|] == read;
    CoveredDamage(t, cut, read);
    NoSeams(t, read, 0, false);
  }

  lemma LevelAnswer(t: Tape, read: seq<Mark>, shifts: seq<int>, count: nat, lost: nat, answer: Option<int>)
    requires t.SeamsFit(read, 0, false) && shifts != [] && forall i :: 0 <= i < |shifts| ==> shifts[i] == 0
    requires lost <= count && t.Arrived(read) == count - lost && (Damaged(read) <==> lost > 0)
    requires 0 <= Samples(count) - |t.reference| < BLOCK && answer == t.Verdict(read, shifts, false)
    ensures answer == if lost == 0 then Some(0) else Some(Samples(lost) - (Samples(count) - |t.reference|))
  {
    if lost > 0 {
      GoneIs(|t.reference|, count, lost);
    }
    LevelVerdict(t, read, shifts, count - lost);
  }

  lemma GoneIs(n: nat, count: nat, lost: nat)
    requires 0 < lost <= count && 0 <= Samples(count) - n < BLOCK
    ensures Max(n - Samples(count - lost), 0) == Samples(lost) - (Samples(count) - n) > 0
  {
  }

  /** The verdict where no match is shifted and no seam is out of place. */
  lemma LevelVerdict(t: Tape, marks: seq<Mark>, shifts: seq<int>, arrived: nat)
    requires arrived == t.Arrived(marks) && t.SeamsFit(marks, 0, false) && shifts != [] && forall i :: 0 <= i < |shifts| ==> shifts[i] == 0
    ensures var gone := Max(|t.reference| - Samples(arrived), 0);
            t.Verdict(marks, shifts, false) == if !Damaged(marks) then Some(0) else Some(if gone == 0 then 1 else gone)
  {
    assert Paused(shifts) == 0 && !Skipped(shifts) by { NoPause(shifts); }
  }
}
