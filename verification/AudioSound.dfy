/** What an answer of `missing` says of any recording at all. */
module AudioSound {
  import opened Common
  import opened Audio
  import opened AudioRead

  /** How many marks at the end aren't matches. */
  function Trail(marks: seq<Mark>): nat {
    if marks == [] || marks[|marks| - 1].kind == Matched then 0 else Trail(marks[..|marks| - 1]) + 1
  }

  /** A mark as the walk leaves it: a match really is the reference's, and a faint one faint. */
  ghost predicate Told(t: Tape, mark: Mark, at: nat) {
    && mark.at == at
    && match mark.kind
       case Matched => t.Matches(t.Block(at), at + mark.shift)
       case Faint => Energy(t.Block(at)) < FLOOR
       case Seam => true
       case _ => false
  }

  ghost predicate Kept(t: Tape, w: Walk) {
    && w.Walk? && |w.marks| <= t.Count()
    && (forall i :: 0 <= i < |w.marks| ==> Told(t, w.marks[i], t.At(i)))
    && w.shift == ShiftBefore(w.marks, |w.marks|)
    && w.shift + |t.recorded| >= 0
    && (w.marks != [] ==> w.held == Samples(Trail(w.marks[..|w.marks| - 1])))
    && (w.marks == [] ==> w.held == 0)
  }

  lemma {:induction false} BestMatches(t: Tape, block: seq<real>, at: nat, lo: int, hi: int)
    requires at + lo >= 0
    ensures var (found, bar) := t.Best(block, at, lo, hi);
            bar <= Allowed(Energy(block)) && (found.Some? ==> found.value >= lo && t.Matches(block, at + found.value))
    decreases hi - lo
  {
    if hi > lo {
      BestMatches(t, block, at, lo, hi - 1);
    }
  }

  /** Of the shifts in [lo, hi), the one found differs least, and is the first that
      does; with none found, the block is the reference's at none of them. */
  lemma {:induction false} BestIsLeast(t: Tape, block: seq<real>, at: nat, lo: int, hi: int, s: int)
    requires at + lo >= 0 && lo <= s < hi
    ensures var (found, bar) := t.Best(block, at, lo, hi);
            && bar <= t.Difference(block, at + s)
            && (found.None? ==> bar == Allowed(Energy(block)) && !t.Matches(block, at + s))
            && (found.Some? ==>
                  && lo <= found.value < hi && bar == t.Difference(block, at + found.value)
                  && (s < found.value ==> bar < t.Difference(block, at + s)))
    decreases hi - lo
  {
    if lo < hi - 1 {
      BestIsLeast(t, block, at, lo, hi - 1, if s < hi - 1 then s else lo);
    }
    BestStep(t, block, at, lo, hi);
  }

  lemma BestStep(t: Tape, block: seq<real>, at: nat, lo: int, hi: int)
    requires at + lo >= 0 && lo < hi
    ensures var before, d := t.Best(block, at, lo, hi - 1), t.Difference(block, at + hi - 1);
            t.Best(block, at, lo, hi) == if d < before.1 then (Some(hi - 1), d) else before
    ensures hi - 1 == lo ==> t.Best(block, at, lo, hi - 1) == (None, Allowed(Energy(block)))
  {
  }

  /** A stretch is split where it loses least, and at the first such place. */
  lemma {:induction false} SplitsWhereLeastIsLost(costs: seq<nat>, j: nat)
    requires j < |costs|
    ensures var k := FirstLeast(costs); costs[k] <= costs[j] && (j < k ==> costs[k] < costs[j])
    decreases |costs|
  {
    var n := |costs| - 1;
    if n > 0 {
      SplitsWhereLeastIsLost(costs[..n], if j < n then j else 0);
    }
  }

  lemma FoundMatches(t: Tape, block: seq<real>, at: nat, start: int, stop: int)
    ensures var found := t.Find(block, at, start, stop);
            found.Some? ==> found.value >= start && t.Matches(block, at + found.value)
  {
    BestMatches(t, block, at, Max(start, 0 - at), Min(stop, |t.reference| - BLOCK - at + 1));
  }

  lemma FoundNearby(t: Tape, block: seq<real>, at: nat, shift: int, held: nat)
    ensures var found := t.Nearby(block, at, shift, held);
            found.Some? ==> found.value >= shift - DRIFT - held && t.Matches(block, at + found.value)
  {
    FoundMatches(t, block, at, shift - DRIFT, shift + DRIFT + 1);
    FoundMatches(t, block, at, shift - DRIFT - held, shift - DRIFT);
  }

  lemma FoundBack(t: Tape, block: seq<real>, at: nat, shift: int, held: nat)
    ensures var found := t.Place(block, at, shift, held);
            found.Some? ==> found.value >= shift - DRIFT - held && t.Matches(block, at + found.value)
  {
    FoundNearby(t, block, at, shift, held);
    FoundMatches(t, block, at, shift + DRIFT + 1, |t.reference|);
  }

  lemma {:induction false} BeforePrefix(marks: seq<Mark>, more: Mark, index: nat)
    requires index <= |marks|
    ensures ShiftBefore(marks + [more], index) == ShiftBefore(marks, index)
    decreases index
  {
    if index > 0 {
      BeforePrefix(marks, more, index - 1);
    }
  }

  /** Where a match was put, against the match before it. */
  ghost predicate Follows(marks: seq<Mark>, shift: int, mark: Mark) {
    mark.kind == Matched ==> mark.shift >= shift - DRIFT - Samples(Trail(marks))
  }

  /** What one step adds: a mark, told truly. */
  lemma StepAdds(t: Tape, w: Walk, at: nat)
    requires w.Walk?
    ensures var r := t.Step(w, at);
            r.Walk? ==>
              && |r.marks| == |w.marks| + 1 && r.marks == w.marks + [r.marks[|w.marks|]] && r.held == HeldNow(w)
              && Told(t, r.marks[|w.marks|], at)
              && r.shift == (if r.marks[|w.marks|].kind == Matched then r.marks[|w.marks|].shift else w.shift)
              && r.shift >= w.shift - DRIFT - HeldNow(w)
  {
    FoundBack(t, t.Block(at), at, w.shift, HeldNow(w));
  }

  lemma StepKeeps(t: Tape, w: Walk, at: nat)
    requires Kept(t, w) && |w.marks| < t.Count() && at == t.At(|w.marks|)
    ensures var r := t.Step(w, at); r.Walk? ==> Kept(t, r) && Follows(w.marks, w.shift, r.marks[|w.marks|])
  {
    StepAdds(t, w, at);
    assert HeldNow(w) == Samples(Trail(w.marks));
    var r, n := t.Step(w, at), |w.marks|;
    if r.Walk? {
      assert r.marks[..n] == w.marks;
      BeforePrefix(w.marks, r.marks[n], n);
      forall i | 0 <= i < n ensures Told(t, r.marks[i], t.At(i)) {
        assert r.marks[i] == w.marks[i];
      }
    }
  }

  lemma {:induction false} WalkGrows(t: Tape, k: nat)
    requires k <= t.Count() && t.Walked(k).Walk?
    ensures |t.Walked(k).marks| == k
    ensures k > 0 ==> t.Walked(k - 1).Walk? && t.Walked(k).marks[..k - 1] == t.Walked(k - 1).marks
    decreases k
  {
    if k > 0 {
      WalkGrows(t, k - 1);
      StepAdds(t, t.Walked(k - 1), t.At(k - 1));
    }
  }

  lemma {:induction false} WalkKeeps(t: Tape, k: nat)
    requires k <= t.Count() && t.Walked(k).Walk?
    ensures Kept(t, t.Walked(k)) && |t.Walked(k).marks| == k
    decreases k
  {
    WalkGrows(t, k);
    if k > 0 {
      WalkKeeps(t, k - 1);
      StepKeeps(t, t.Walked(k - 1), t.At(k - 1));
    }
  }

  // --------------------------------------------------------------- zero is earned

  /** A mark once faint stretches are read: a quiet one isn't in place of sound. */
  ghost predicate Settled(t: Tape, mark: Mark, from: Mark) {
    if from.kind != Faint then mark == from
    else mark.at == from.at && mark.kind == (if t.Silenced(mark.at, mark.shift) then Lost else Quiet)
  }

  ghost predicate AllSettled(t: Tape, marks: seq<Mark>, from: seq<Mark>, first: nat) {
    |marks| + first == |from| && forall k :: 0 <= k < |marks| ==> Settled(t, marks[k], from[first + k])
  }

  lemma ReadInSettles(t: Tape, marks: seq<Mark>, start: nat, j: nat, mark: Mark)
    requires j < |marks| && ReadIn(t, marks, start, j, mark)
    ensures Settled(t, mark, marks[j])
  {
    if marks[j].kind == Faint {
      var end := RunEnd(marks, start, Faint);
      var early, after := ShiftBefore(marks, start), ShiftAfter(marks, end);
      StretchIs(t, marks, start, end, j, early, if after.Some? then after.value else early);
    }
  }

  lemma ReadsSettle(t: Tape, marks: seq<Mark>, read: seq<Mark>)
    requires AllRead(t, marks, read)
    ensures AllSettled(t, read, marks, 0)
  {
    forall k | 0 <= k < |read| ensures Settled(t, read[k], marks[0 + k]) {
      assert ReadSomewhere(t, marks, k, read[k]);
      var start: nat :| ReadIn(t, marks, start, k, read[k]);
      ReadInSettles(t, marks, start, k, read[k]);
    }
  }

  lemma {:induction false} SameShifts(a: seq<Mark>, b: seq<Mark>)
    requires |a| == |b|
    requires forall i :: 0 <= i < |a| ==>
               (a[i].kind == Matched <==> b[i].kind == Matched) && (a[i].kind == Matched ==> a[i].shift == b[i].shift)
    ensures Shifts(a) == Shifts(b)
  {
    if a != [] {
      SameShifts(a[..|a| - 1], b[..|b| - 1]);
    }
  }

  /** One millisecond that arrived: the reference's at its place, or too faint to
      place and not in place of sound. */
  ghost predicate Whole(t: Tape, mark: Mark) {
    if mark.kind == Matched then t.Matches(t.Block(mark.at), mark.at + mark.shift)
    else mark.kind == Quiet && Energy(t.Block(mark.at)) < FLOOR && !t.Silenced(mark.at, mark.shift)
  }

  /** The shifts of the matches: the first at the reference's start, none a skip or a pause. */
  predicate Steady(shifts: seq<int>) {
    shifts != [] && shifts[0] <= SKIP && forall i :: 0 < i < |shifts| ==> Gap(shifts[i - 1], shifts[i]) <= SKIP
  }

  /** Only a recording that arrived whole is answered 0: every millisecond is the
      reference's or as quiet, the sound never skips or pauses, and no more than a
      millisecond of sound comes after it. */
  lemma ZeroIsEarned(t: Tape) returns (marks: seq<Mark>)
    requires t.Missing() == Some(0)
    ensures |marks| == t.Count()
    ensures forall i :: 0 <= i < |marks| ==> marks[i].at == t.At(i) && Whole(t, marks[i])
    ensures Steady(Shifts(marks))
    ensures 0 <= |t.recorded| + ShiftBefore(marks, |marks|)
    ensures |t.recorded| + ShiftBefore(marks, |marks|) < |t.reference| ==>
              Heard(t.reference[|t.recorded| + ShiftBefore(marks, |marks|)..]) <= BLOCK
  {
    var from, shift;
    from, marks, shift := Answered(t, 0);
    Earned(t, from, marks, shift);
  }

  lemma Earned(t: Tape, from: seq<Mark>, marks: seq<Mark>, shift: int)
    requires |from| == t.Count() && forall i :: 0 <= i < |from| ==> Told(t, from[i], t.At(i))
    requires AllSettled(t, marks, from, 0) && shift == ShiftBefore(from, |from|) && |t.recorded| + shift >= 0
    requires Shifts(from) != [] && t.Verdict(marks, Shifts(from), t.TailLost(shift)) == Some(0)
    ensures forall i :: 0 <= i < |marks| ==> marks[i].at == t.At(i) && Whole(t, marks[i])
    ensures Steady(Shifts(marks)) && ShiftBefore(marks, |marks|) == shift
    ensures |t.recorded| + shift < |t.reference| ==> Heard(t.reference[|t.recorded| + shift..]) <= BLOCK
  {
    NotDamaged(t, marks, Shifts(from), t.TailLost(shift));
    SettledWhole(t, from, marks);
    NoTail(t, shift);
  }

  /** The walk behind an answer. */
  lemma Answered(t: Tape, answer: int) returns (from: seq<Mark>, marks: seq<Mark>, shift: int)
    requires t.Missing() == Some(answer)
    ensures |from| == t.Count() && forall i :: 0 <= i < |from| ==> Told(t, from[i], t.At(i))
    ensures AllSettled(t, marks, from, 0) && shift == ShiftBefore(from, |from|) && |t.recorded| + shift >= 0
    ensures Shifts(from) != [] && t.Verdict(marks, Shifts(from), t.TailLost(shift)) == Some(answer)
  {
    var w := t.Walked(t.Count());
    from, shift, marks := w.marks, w.shift, t.Resolved(w.marks);
    assert Kept(t, w) && |w.marks| == t.Count() by { WalkKeeps(t, t.Count()); }
    assert AllSettled(t, marks, from, 0) by {
      ResolvedReads(t, from, marks);
      ReadsSettle(t, from, marks);
    }
  }

  lemma NoTail(t: Tape, shift: int)
    requires !t.TailLost(shift) && |t.recorded| + shift >= 0
    ensures |t.recorded| + shift < |t.reference| ==> Heard(t.reference[|t.recorded| + shift..]) <= BLOCK
  {
  }

  lemma SettledWhole(t: Tape, from: seq<Mark>, marks: seq<Mark>)
    requires |from| == t.Count() && forall i :: 0 <= i < |from| ==> Told(t, from[i], t.At(i))
    requires AllSettled(t, marks, from, 0)
    requires forall i :: 0 <= i < |marks| ==> marks[i].kind != Lost && marks[i].kind != Seam
    ensures forall i :: 0 <= i < |marks| ==> marks[i].at == t.At(i) && Whole(t, marks[i])
    ensures Shifts(marks) == Shifts(from) && ShiftBefore(marks, |marks|) == ShiftBefore(from, |from|)
  {
    forall i | 0 <= i < |marks|
      ensures marks[i].at == t.At(i) && Whole(t, marks[i])
      ensures (marks[i].kind == Matched <==> from[i].kind == Matched) && (marks[i].kind == Matched ==> marks[i] == from[i])
    {
      OneWhole(t, from[i], marks[i], t.At(i));
    }
    SameShifts(marks, from);
    SameBefore(marks, from, |marks|);
  }

  lemma OneWhole(t: Tape, from: Mark, mark: Mark, at: nat)
    requires Told(t, from, at) && Settled(t, mark, from) && mark.kind != Lost && mark.kind != Seam
    ensures mark.at == at && Whole(t, mark)
    ensures (mark.kind == Matched <==> from.kind == Matched) && (mark.kind == Matched ==> mark == from)
  {
  }

  lemma NotDamaged(t: Tape, marks: seq<Mark>, shifts: seq<int>, tail: bool)
    requires shifts != [] && t.Verdict(marks, shifts, tail) == Some(0)
    ensures !tail && Steady(shifts)
    ensures forall i :: 0 <= i < |marks| ==> marks[i].kind != Lost && marks[i].kind != Seam
  {
  }

  lemma {:induction false} SameBefore(a: seq<Mark>, b: seq<Mark>, index: nat)
    requires |a| == |b| && index <= |a|
    requires forall i :: 0 <= i < |a| ==>
               (a[i].kind == Matched <==> b[i].kind == Matched) && (a[i].kind == Matched ==> a[i].shift == b[i].shift)
    ensures ShiftBefore(a, index) == ShiftBefore(b, index)
    decreases index
  {
    if index > 0 {
      SameBefore(a, b, index - 1);
    }
  }

  // ---------------------------------------------------------- audio never repeats

  function Where(mark: Mark): int { mark.at + mark.shift }

  lemma {:induction false} TrailSince(marks: seq<Mark>, i: nat)
    requires i < |marks| && marks[i].kind == Matched && forall k :: i < k < |marks| ==> marks[k].kind != Matched
    ensures Trail(marks) == |marks| - 1 - i && ShiftBefore(marks, |marks|) == marks[i].shift
    decreases |marks|
  {
    var n := |marks| - 1;
    if i < n {
      TrailSince(marks[..n], i);
      assert marks == marks[..n] + [marks[n]];
      BeforePrefix(marks[..n], marks[n], n);
    }
  }

  lemma ShorterPrefix(marks: seq<Mark>, k: nat, n: nat)
    requires k <= n <= |marks|
    ensures marks[..n][..k] == marks[..k]
  {
  }

  /** Each walk of a list adds one mark to the one before it. */
  ghost predicate EachAddsOne(walks: seq<Walk>) {
    && (walks != [] && walks[0].Walk? ==> walks[0].marks == [])
    && forall m {:trigger walks[m]} :: 0 < m < |walks| && walks[m].Walk? ==>
         walks[m - 1].Walk? && |walks[m].marks| == m && walks[m].marks[..m - 1] == walks[m - 1].marks
  }

  lemma {:induction false} PrefixOfEach(walks: seq<Walk>, k: nat, n: nat)
    requires EachAddsOne(walks) && k <= n < |walks| && walks[n].Walk?
    ensures walks[k].Walk? && |walks[k].marks| == k && |walks[n].marks| == n && walks[k].marks == walks[n].marks[..k]
    decreases n
  {
    if k < n {
      PrefixOfEach(walks, k, n - 1);
      ShorterPrefix(walks[n].marks, k, n - 1);
    }
  }

  lemma WalkedPrefix(t: Tape, k: nat, n: nat)
    requires k <= n <= t.Count() && t.Walked(n).Walk?
    ensures t.Walked(k).Walk? && |t.Walked(k).marks| == k && |t.Walked(n).marks| == n
    ensures t.Walked(k).marks == t.Walked(n).marks[..k]
  {
    var walks := seq(n + 1, m requires 0 <= m <= n => t.Walked(m));
    WalkedEach(t, walks);
    PrefixOfEach(walks, k, n);
  }

  lemma WalkedEach(t: Tape, walks: seq<Walk>)
    requires |walks| <= t.Count() + 1 && forall m :: 0 <= m < |walks| ==> walks[m] == t.Walked(m)
    ensures EachAddsOne(walks)
  {
    forall m: nat | 0 < m < |walks| && walks[m].Walk?
      ensures walks[m - 1].Walk? && |walks[m].marks| == m && walks[m].marks[..m - 1] == walks[m - 1].marks
    {
      WalkGrows(t, m);
    }
  }

  lemma StartsStep(t: Tape, i: nat, j: nat)
    requires i < j < t.Count()
    ensures j < |t.recorded| / BLOCK ==> t.At(j) - t.At(i) == Samples(j - i)
    ensures t.At(j) - t.At(i) > Samples(j - i) - BLOCK
  {
  }

  /** In whatever is marked, each match comes after the one before it in the reference
      too, by at least 32 samples; only the last millisecond, which overlaps the one
      before it, may come as much as 15 samples before. */
  lemma NeverRepeats(t: Tape, i: nat, j: nat)
    requires var w := t.Walked(t.Count());
             && w.Walk? && i < j < |w.marks| && w.marks[i].kind == Matched && w.marks[j].kind == Matched
             && forall k :: i < k < j ==> w.marks[k].kind != Matched
    ensures var marks := t.Walked(t.Count()).marks;
            && (j < |t.recorded| / BLOCK ==> Where(marks[j]) >= Where(marks[i]) + 32)
            && Where(marks[j]) > Where(marks[i]) - DRIFT
  {
    assert |t.Walked(t.Count()).marks| == t.Count() by { WalkKeeps(t, t.Count()); }
    var before := MarkFollows(t, j);
    FurtherOn(t, t.Walked(t.Count()).marks, before, i, j);
  }

  lemma FurtherOn(t: Tape, marks: seq<Mark>, before: Walk, i: nat, j: nat)
    requires i < j < |marks| == t.Count() && Kept(t, before) && before.marks == marks[..j]
    requires marks[i].kind == Matched && marks[j].kind == Matched && forall k :: i < k < j ==> marks[k].kind != Matched
    requires marks[j].at == t.At(j) && Follows(before.marks, before.shift, marks[j])
    ensures j < |t.recorded| / BLOCK ==> Where(marks[j]) >= Where(marks[i]) + 32
    ensures Where(marks[j]) > Where(marks[i]) - DRIFT
  {
    assert forall k :: 0 <= k < j ==> before.marks[k] == marks[k];
    assert Told(t, before.marks[i], t.At(i));
    NextIsFurther(t, before, marks[j], i, j);
  }

  /** The j-th mark, against the walk up to it. */
  lemma MarkFollows(t: Tape, j: nat) returns (before: Walk)
    requires j < t.Count() && t.Walked(t.Count()).Walk?
    ensures var w := t.Walked(t.Count());
            && Kept(t, w) && |w.marks| == t.Count() && Kept(t, before) && before.marks == w.marks[..j]
            && w.marks[j].at == t.At(j) && Follows(before.marks, before.shift, w.marks[j])
  {
    var n := t.Count();
    var w, after := t.Walked(n), t.Walked(j + 1);
    before := t.Walked(j);
    assert Kept(t, w) && |w.marks| == n by { WalkKeeps(t, n); }
    assert before.marks == w.marks[..j] by { WalkedPrefix(t, j, n); }
    assert after.Walk? && after.marks == w.marks[..j + 1] by { WalkedPrefix(t, j + 1, n); }
    assert Kept(t, before) && |after.marks| == j + 1 && Follows(before.marks, before.shift, after.marks[j]) by { StepFollows(t, j); }
    assert w.marks[j] == after.marks[j];
    assert Told(t, w.marks[j], t.At(j));
  }

  lemma StepFollows(t: Tape, j: nat)
    requires j < t.Count() && t.Walked(j + 1).Walk?
    ensures var (before, after) := (t.Walked(j), t.Walked(j + 1));
            && Kept(t, before) && |before.marks| == j && |after.marks| == j + 1
            && Follows(before.marks, before.shift, after.marks[j])
  {
    WalkGrows(t, j + 1);
    WalkKeeps(t, j);
    StepKeeps(t, t.Walked(j), t.At(j));
  }

  lemma NextIsFurther(t: Tape, before: Walk, mark: Mark, i: nat, j: nat)
    requires i < j < t.Count() && Kept(t, before) && |before.marks| == j
    requires before.marks[i].kind == Matched && forall k :: i < k < j ==> before.marks[k].kind != Matched
    requires mark.kind == Matched && mark.at == t.At(j) && Follows(before.marks, before.shift, mark)
    ensures j < |t.recorded| / BLOCK ==> Where(mark) >= t.At(i) + before.marks[i].shift + 32
    ensures Where(mark) > t.At(i) + before.marks[i].shift - DRIFT
  {
    TrailSince(before.marks, i);
    StartsStep(t, i, j);
  }
}
