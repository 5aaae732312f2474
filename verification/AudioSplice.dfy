/**
 How `missing` walks a recording that is its reference with whole milliseconds left
 out at one place, silence put in there, or both. Everything before the cut is found
 in place, and everything after it at one other shift.
 */
module AudioSplice {
  import opened Common
  import opened Audio
  import opened AudioWhole
  import opened AudioSound
  import opened AudioRead

  /** Where the cut is, how much silence is put in, and how much is left out, in milliseconds. */
  datatype Cut = Cut(k: nat, p: nat, g: nat)

  /** The shift of everything after the cut. */
  function Turn(cut: Cut): int { Samples(cut.g) - Samples(cut.p) }

  function Silence(n: nat): seq<real> { seq(n, _ => 0.0) }

  /** At least one whole millisecond follows the cut. */
  ghost predicate Spliced(t: Tape, cut: Cut) {
    && Samples(cut.k) + Samples(cut.g) + BLOCK <= |t.reference|
    && t.recorded ==
       t.reference[..Samples(cut.k)] + Silence(Samples(cut.p)) + t.reference[Samples(cut.k) + Samples(cut.g)..]
  }

  // ------------------------------------------------------------ block by block

  lemma SampleIs(t: Tape, cut: Cut, j: nat)
    requires Spliced(t, cut) && j < |t.recorded|
    ensures |t.recorded| + Turn(cut) == |t.reference|
    ensures j < Samples(cut.k) ==> j < |t.reference| && t.recorded[j] == t.reference[j]
    ensures Samples(cut.k) <= j < Samples(cut.k) + Samples(cut.p) ==> t.recorded[j] == 0.0
    ensures Samples(cut.k) + Samples(cut.p) <= j ==>
              0 <= j + Turn(cut) < |t.reference| && t.recorded[j] == t.reference[j + Turn(cut)]
  {
    var a, b, c := t.reference[..Samples(cut.k)], Silence(Samples(cut.p)), t.reference[Samples(cut.k) + Samples(cut.g)..];
    assert |a| == Samples(cut.k) && |b| == Samples(cut.p);
    assert t.recorded[j] ==
           if j < |a| then a[j] else if j < |a| + |b| then b[j - |a|] else c[j - |a| - |b|];
  }

  lemma Lengths(t: Tape, cut: Cut)
    requires Spliced(t, cut)
    ensures |t.recorded| + Turn(cut) == |t.reference|
    ensures |t.recorded| >= Samples(cut.k) + Samples(cut.p) + BLOCK
    ensures cut.k + cut.p < t.Count()
  {
  }

  /** Where the i-th millisecond starts, and that it lies on one side of the cut or in it. */
  lemma Lies(t: Tape, cut: Cut, i: nat)
    requires Spliced(t, cut) && i < t.Count()
    ensures i < cut.k + cut.p ==> t.At(i) == Samples(i)
    ensures i >= cut.k + cut.p ==> t.At(i) >= Samples(cut.k) + Samples(cut.p) && t.At(i) + Turn(cut) >= 0
    ensures t.At(i) + BLOCK <= |t.recorded|
  {
    Lengths(t, cut);
  }

  /** A stretch of 48 recorded samples that is the reference's from `q` on. */
  lemma Identical(t: Tape, at: nat, q: nat)
    requires at + BLOCK <= |t.recorded| && q + BLOCK <= |t.reference|
    requires t.recorded[at..at + BLOCK] == t.reference[q..q + BLOCK]
    ensures |t.Block(at)| == BLOCK && t.Block(at) == t.There(q) && t.Difference(t.Block(at), q) == 0.0
    ensures Energy(t.Block(at)) >= FLOOR ==> t.Matches(t.Block(at), q)
  {
    var block, there := t.Block(at), t.There(q);
    forall j | 0 <= j < BLOCK ensures block[j] == there[j] {
      assert block[j] == t.recorded[at..at + BLOCK][j] == t.reference[q..q + BLOCK][j] == t.Sample(q + j);
    }
    assert block == there;
    NoDifference(block, BLOCK);
  }

  /** The shift at which the i-th millisecond is the reference's. */
  function TrueShift(cut: Cut, i: nat): int { if i < cut.k then 0 else Turn(cut) }

  predicate InGap(cut: Cut, i: nat) { cut.k <= i < cut.k + cut.p }

  predicate LoudAt(t: Tape, i: nat)
    requires i < t.Count()
  {
    Energy(t.Block(t.At(i))) >= FLOOR
  }

  lemma OutsideIs(t: Tape, cut: Cut, i: nat)
    requires Spliced(t, cut) && i < t.Count() && !InGap(cut, i)
    ensures var (at, q) := (t.At(i), t.At(i) + TrueShift(cut, i));
            && 0 <= q && q + BLOCK <= |t.reference| && |t.Block(at)| == BLOCK && t.Block(at) == t.There(q)
            && t.Difference(t.Block(at), q) == 0.0 && (LoudAt(t, i) ==> t.Matches(t.Block(at), q))
  {
    Lies(t, cut, i);
    Lengths(t, cut);
    var at, q := t.At(i), t.At(i) + TrueShift(cut, i);
    var a, b := t.recorded[at..at + BLOCK], t.reference[q..q + BLOCK];
    forall j | 0 <= j < BLOCK ensures a[j] == b[j] {
      SampleIs(t, cut, at + j);
      assert a[j] == t.recorded[at + j] && b[j] == t.reference[q + j];
    }
    assert a == b;
    Identical(t, at, q);
  }

  lemma {:induction false} NoEnergy(s: seq<real>, n: nat)
    requires n <= |s| && forall j :: 0 <= j < |s| ==> s[j] == 0.0
    ensures EnergyTo(s, n) == 0.0
  {
    if n > 0 {
      NoEnergy(s, n - 1);
      assert Sq(s[n - 1]) == 0.0;
    }
  }

  lemma GapIs(t: Tape, cut: Cut, i: nat)
    requires Spliced(t, cut) && i < t.Count() && InGap(cut, i)
    ensures t.At(i) == Samples(i) && Silent(t.Block(t.At(i))) && !LoudAt(t, i)
  {
    Lies(t, cut, i);
    var block := t.Block(t.At(i));
    forall j | 0 <= j < |block| ensures block[j] == 0.0 {
      SampleIs(t, cut, t.At(i) + j);
    }
    NoEnergy(block, |block|);
  }

  // -------------------------------------------------------------- finding it again

  /** The block matches the reference at `at + turn`, and nowhere else. */
  ghost predicate OnlyAt(t: Tape, block: seq<real>, at: nat, turn: int) {
    && t.Matches(block, at + turn)
    && forall q :: q != at + turn ==> !t.Matches(block, q)
  }

  lemma FindsOnly(t: Tape, block: seq<real>, at: nat, start: int, stop: int, turn: int)
    requires OnlyAt(t, block, at, turn)
    ensures t.Find(block, at, start, stop) ==
            if Max(start, 0 - at) <= turn < Min(stop, |t.reference| - BLOCK - at + 1) then Some(turn) else None
  {
    var lo, hi := Max(start, 0 - at), Min(stop, |t.reference| - BLOCK - at + 1);
    BestMatches(t, block, at, lo, hi);
    BestInRange(t, block, at, lo, hi);
    if lo <= turn < hi {
      BestIsLeast(t, block, at, lo, hi, turn);
    }
  }

  lemma {:induction false} BestInRange(t: Tape, block: seq<real>, at: nat, lo: int, hi: int)
    requires at + lo >= 0
    ensures var found := t.Best(block, at, lo, hi).0; found.Some? ==> lo <= found.value < hi
    decreases hi - lo
  {
    if hi > lo {
      BestInRange(t, block, at, lo, hi - 1);
    }
  }

  /** Enough to tell it by: no silence at its edges, and nothing else in the reference like it. */
  ghost predicate Placeable(t: Tape, block: seq<real>, at: nat, turn: int) {
    && !t.Edged(block) && OnlyAt(t, block, at, turn)
    && (turn > 0 ==> !t.StartsHere(block, at, BLOCK - EDGE))
  }

  lemma NearbyIs(t: Tape, block: seq<real>, at: nat, held: nat, turn: int)
    requires OnlyAt(t, block, at, turn) && at + turn >= 0 && at + turn + BLOCK <= |t.reference|
    requires turn < 0 - DRIFT || turn > DRIFT
    requires turn < 0 ==> -turn <= held
    ensures t.Nearby(block, at, 0, held) == if turn < 0 then Some(turn) else None
  {
    FindsOnly(t, block, at, 0 - DRIFT, 0 + DRIFT + 1, turn);
    FindsOnly(t, block, at, 0 - DRIFT - held, 0 - DRIFT, turn);
  }

  lemma PlaceIs(t: Tape, block: seq<real>, at: nat, held: nat, turn: int)
    requires Placeable(t, block, at, turn) && at + turn >= 0 && at + turn + BLOCK <= |t.reference|
    requires turn < 0 - DRIFT || turn > DRIFT
    requires turn < 0 ==> -turn <= held
    ensures t.Place(block, at, 0, held) == Some(turn)
  {
    NearbyIs(t, block, at, held, turn);
    if turn > 0 {
      FindsOnly(t, block, at, 0 + DRIFT + 1, |t.reference|, turn);
    }
  }

  // ---------------------------------------------------------------------- the walk

  /** The first audible millisecond after the cut, which says where the sound went on. */
  ghost predicate Tells(t: Tape, cut: Cut, f: nat) {
    && cut.k <= f < t.Count() && LoudAt(t, f) && (forall i :: cut.k <= i < f ==> !LoudAt(t, i))
    && Placeable(t, t.Block(t.At(f)), t.At(f), Turn(cut))
  }

  predicate Expected(t: Tape, cut: Cut, mark: Mark, i: nat)
    requires i < t.Count()
  {
    mark == if LoudAt(t, i) then Mark(Matched, TrueShift(cut, i), t.At(i)) else Mark(Faint, 0, t.At(i))
  }

  function ShiftThere(cut: Cut, f: nat, j: nat): int { if j > f then Turn(cut) else 0 }

  ghost predicate Walks(t: Tape, cut: Cut, f: nat, w: Walk, j: nat) {
    && j <= t.Count() && w.Walk? && |w.marks| == j && w.shift == ShiftThere(cut, f, j)
    && forall i :: 0 <= i < j ==> Expected(t, cut, w.marks[i], i)
  }

  lemma {:induction false} TrailCovers(marks: seq<Mark>, a: nat)
    requires a <= |marks| && forall i :: a <= i < |marks| ==> marks[i].kind != Matched
    ensures Trail(marks) >= |marks| - a
    decreases |marks|
  {
    if a < |marks| {
      TrailCovers(marks[..|marks| - 1], a);
    }
  }

  lemma HeldIsTrail(t: Tape, w: Walk)
    requires Kept(t, w)
    ensures HeldNow(w) == Samples(Trail(w.marks))
  {
  }

  /** The first audible millisecond after the cut is found at the turn. */
  lemma TurnIs(t: Tape, cut: Cut, f: nat, marks: seq<Mark>, held: nat)
    requires Spliced(t, cut) && Turn(cut) != 0 && Tells(t, cut, f) && !InGap(cut, f) && held >= Samples(cut.p)
    ensures t.Marked(marks, 0, held, t.At(f)) == Some(Mark(Matched, Turn(cut), t.At(f)))
  {
    var at, turn := t.At(f), Turn(cut);
    TurnFits(t, cut, f, held);
    MarkedAtTurn(t, marks, held, at, turn);
  }

  lemma TurnFits(t: Tape, cut: Cut, f: nat, held: nat)
    requires Spliced(t, cut) && Turn(cut) != 0 && f < t.Count() && f >= cut.k && !InGap(cut, f) && held >= Samples(cut.p)
    ensures var (at, turn) := (t.At(f), Turn(cut));
            && 0 <= at + turn && at + turn + BLOCK <= |t.reference| && (turn < 0 - DRIFT || turn > DRIFT)
            && (turn < 0 ==> -turn <= held)
  {
    OutsideIs(t, cut, f);
  }

  lemma TellsOutside(t: Tape, cut: Cut, f: nat)
    requires Spliced(t, cut) && Tells(t, cut, f)
    ensures !InGap(cut, f)
  {
    if InGap(cut, f) {
      GapIs(t, cut, f);
    }
  }

  lemma HeldEnough(t: Tape, cut: Cut, f: nat, w: Walk)
    requires Tells(t, cut, f) && !InGap(cut, f) && Walks(t, cut, f, w, f) && Kept(t, w)
    ensures HeldNow(w) >= Samples(cut.p)
  {
    HeldIsTrail(t, w);
    forall i | cut.k <= i < |w.marks| ensures w.marks[i].kind != Matched {
      assert Expected(t, cut, w.marks[i], i) && !LoudAt(t, i);
    }
    TrailCovers(w.marks, cut.k);
  }

  /** A millisecond that matches where the last one did is marked so, and a faint one faint. */
  lemma MarkedHere(t: Tape, marks: seq<Mark>, shift: int, held: nat, at: nat)
    requires Energy(t.Block(at)) < FLOOR || t.Matches(t.Block(at), at + shift)
    ensures t.Marked(marks, shift, held, at) ==
            Some(if Energy(t.Block(at)) < FLOOR then Mark(Faint, 0, at) else Mark(Matched, shift, at))
  {
  }

  lemma MarkedAtTurn(t: Tape, marks: seq<Mark>, held: nat, at: nat, turn: int)
    requires Placeable(t, t.Block(at), at, turn) && Energy(t.Block(at)) >= FLOOR
    requires at + turn >= 0 && at + turn + BLOCK <= |t.reference| && (turn < 0 - DRIFT || turn > DRIFT)
    requires turn < 0 ==> -turn <= held
    ensures t.Marked(marks, 0, held, at) == Some(Mark(Matched, turn, at))
  {
    PlaceIs(t, t.Block(at), at, held, turn);
    assert !t.Matches(t.Block(at), at + 0);
  }

  /** Any other millisecond is what it should be without looking further. */
  lemma InPlaceIs(t: Tape, cut: Cut, marks: seq<Mark>, shift: int, held: nat, j: nat)
    requires Spliced(t, cut) && j < t.Count() && (LoudAt(t, j) ==> !InGap(cut, j) && shift == TrueShift(cut, j))
    ensures t.Marked(marks, shift, held, t.At(j)) ==
            Some(if LoudAt(t, j) then Mark(Matched, TrueShift(cut, j), t.At(j)) else Mark(Faint, 0, t.At(j)))
  {
    if LoudAt(t, j) {
      MatchesInPlace(t, cut, j);
    }
    MarkedHere(t, marks, shift, held, t.At(j));
  }

  lemma ShiftIsTrue(t: Tape, cut: Cut, f: nat, j: nat)
    requires Spliced(t, cut) && j < t.Count() && LoudAt(t, j) && (Turn(cut) == 0 || (Tells(t, cut, f) && j != f))
    ensures !InGap(cut, j) && ShiftThere(cut, f, j) == TrueShift(cut, j)
  {
    if InGap(cut, j) {
      GapIs(t, cut, j);
    }
  }

  lemma MatchesInPlace(t: Tape, cut: Cut, j: nat)
    requires Spliced(t, cut) && j < t.Count() && !InGap(cut, j) && LoudAt(t, j)
    ensures t.Matches(t.Block(t.At(j)), t.At(j) + TrueShift(cut, j))
  {
    OutsideIs(t, cut, j);
  }

  lemma StepIs(t: Tape, cut: Cut, f: nat, w: Walk, j: nat, mark: Mark)
    requires Walks(t, cut, f, w, j) && j < t.Count() && Expected(t, cut, mark, j)
    requires Turn(cut) == 0 || Tells(t, cut, f)
    requires t.Marked(w.marks, w.shift, HeldNow(w), t.At(j)) == Some(mark)
    ensures Walks(t, cut, f, t.Step(w, t.At(j)), j + 1)
  {
    var r := t.Step(w, t.At(j));
    assert r.Walk? && r.marks == w.marks + [mark] && r.shift == (if mark.kind == Matched then mark.shift else w.shift) by {
      StepAddsMark(t, w, t.At(j), mark);
    }
    forall i | 0 <= i < j + 1 ensures Expected(t, cut, r.marks[i], i) {
      assert r.marks[i] == if i < j then w.marks[i] else mark;
    }
  }

  lemma NextIs(t: Tape, cut: Cut, f: nat, w: Walk, j: nat)
    requires Spliced(t, cut) && Walks(t, cut, f, w, j) && Kept(t, w) && j < t.Count()
    requires Turn(cut) == 0 || Tells(t, cut, f)
    ensures Walks(t, cut, f, t.Step(w, t.At(j)), j + 1)
  {
    var at := t.At(j);
    var mark := if LoudAt(t, j) then Mark(Matched, TrueShift(cut, j), at) else Mark(Faint, 0, at);
    assert t.Marked(w.marks, w.shift, HeldNow(w), at) == Some(mark) by {
      if Turn(cut) != 0 && j == f {
        TellsOutside(t, cut, f);
        HeldEnough(t, cut, f, w);
        TurnIs(t, cut, f, w.marks, HeldNow(w));
      } else {
        if LoudAt(t, j) {
          ShiftIsTrue(t, cut, f, j);
        }
        InPlaceIs(t, cut, w.marks, w.shift, HeldNow(w), j);
      }
    }
    StepIs(t, cut, f, w, j, mark);
  }

  lemma WalkedNext(t: Tape, j: nat)
    requires j < t.Count() && t.Walked(j).Walk?
    ensures t.Walked(j + 1) == t.Step(t.Walked(j), t.At(j))
  {
  }

  ghost predicate WalksTo(t: Tape, cut: Cut, f: nat, j: nat) { j <= t.Count() && Walks(t, cut, f, t.Walked(j), j) }

  lemma OneOn(t: Tape, cut: Cut, f: nat, j: nat)
    requires Spliced(t, cut) && j < t.Count() && (Turn(cut) == 0 || Tells(t, cut, f)) && WalksTo(t, cut, f, j)
    ensures WalksTo(t, cut, f, j + 1)
  {
    var w, r := t.Walked(j), t.Walked(j + 1);
    assert Kept(t, w) by { WalkKeeps(t, j); }
    assert r == t.Step(w, t.At(j)) by { WalkedNext(t, j); }
    NextIs(t, cut, f, w, j);
  }

  lemma {:induction false} OnAndOn(t: Tape, cut: Cut, f: nat, j: nat)
    requires j <= t.Count() && WalksTo(t, cut, f, 0)
    requires forall i: nat :: i < t.Count() && WalksTo(t, cut, f, i) ==> WalksTo(t, cut, f, i + 1)
    ensures WalksTo(t, cut, f, j)
    decreases j
  {
    if j > 0 {
      OnAndOn(t, cut, f, j - 1);
    }
  }

  /** The whole walk: every audible millisecond matched at its true shift, the others faint. */
  lemma WalkIs(t: Tape, cut: Cut, f: nat)
    requires Spliced(t, cut) && (Turn(cut) == 0 || Tells(t, cut, f))
    ensures Walks(t, cut, f, t.Walked(t.Count()), t.Count())
  {
    forall i: nat | i < t.Count() && WalksTo(t, cut, f, i) ensures WalksTo(t, cut, f, i + 1) {
      OneOn(t, cut, f, i);
    }
    OnAndOn(t, cut, f, t.Count());
  }
}
