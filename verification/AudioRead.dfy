/** How faint stretches are read: mark by mark, what `Resolved` makes of them. */
module AudioRead {
  import opened Common
  import opened Audio

  /** A reading of stretches that gives each as many marks as it has. */
  ghost predicate Fitting(marks: seq<Mark>, stretch: (nat, nat) -> seq<Mark>) {
    forall first: nat, end: nat :: first <= end <= |marks| ==> |stretch(first, end)| == end - first
  }

  /** What the mark at `first`, or the faint stretch it starts, is read as. */
  function Piece(marks: seq<Mark>, first: nat, stretch: (nat, nat) -> seq<Mark>): seq<Mark>
    requires first < |marks|
  {
    if marks[first].kind != Faint then [marks[first]] else stretch(first, RunEnd(marks, first, Faint))
  }

  lemma PieceEnds(marks: seq<Mark>, first: nat, stretch: (nat, nat) -> seq<Mark>)
    requires first < |marks| && Fitting(marks, stretch)
    ensures var next := first + |Piece(marks, first, stretch)|;
            && next == (if marks[first].kind != Faint then first + 1 else RunEnd(marks, first, Faint))
            && Pieced(marks, first, stretch) == Piece(marks, first, stretch) + Pieced(marks, next, stretch)
            && (next < |marks| ==> marks[next].kind != Faint || marks[next - 1].kind != Faint)
  {
    PieceReaches(marks, first, stretch);
  }

  lemma PieceReaches(marks: seq<Mark>, first: nat, stretch: (nat, nat) -> seq<Mark>)
    requires first < |marks| && Fitting(marks, stretch)
    ensures first + |Piece(marks, first, stretch)| == if marks[first].kind != Faint then first + 1 else RunEnd(marks, first, Faint)
  {
  }

  lemma {:induction false} PiecedLength(marks: seq<Mark>, first: nat, stretch: (nat, nat) -> seq<Mark>)
    requires first <= |marks| && Fitting(marks, stretch)
    ensures |Pieced(marks, first, stretch)| == |marks| - first
    decreases |marks| - first
  {
    if first < |marks| {
      PieceEnds(marks, first, stretch);
      PiecedLength(marks, first + |Piece(marks, first, stretch)|, stretch);
    }
  }

  /** A mark that isn't faint stays; a faint one is read with the stretch it is in. */
  ghost predicate ReadBy(marks: seq<Mark>, stretch: (nat, nat) -> seq<Mark>, start: nat, j: nat, mark: Mark)
    requires j < |marks| && Fitting(marks, stretch)
  {
    if marks[j].kind != Faint then mark == marks[j]
    else
      && start <= j && marks[start].kind == Faint && (start == 0 || marks[start - 1].kind != Faint)
      && j < RunEnd(marks, start, Faint) && mark == stretch(start, RunEnd(marks, start, Faint))[j - start]
  }

  lemma {:induction false} PiecedFrom(marks: seq<Mark>, first: nat, stretch: (nat, nat) -> seq<Mark>, whole: seq<Mark>, j: nat)
    returns (start: nat)
    requires first <= j < |marks| && Fitting(marks, stretch)
    requires whole == Pieced(marks, first, stretch) && |whole| == |marks| - first
    requires first == 0 || marks[first].kind != Faint || marks[first - 1].kind != Faint
    ensures ReadBy(marks, stretch, start, j, whole[j - first])
    decreases |marks| - first
  {
    var piece := Piece(marks, first, stretch);
    var next := first + |piece|;
    PieceEnds(marks, first, stretch);
    var rest := Pieced(marks, next, stretch);
    if j < next {
      start := first;
      assert whole[j - first] == piece[j - first];
    } else {
      start := PiecedFrom(marks, next, stretch, rest, j);
      assert whole[j - first] == rest[j - next];
    }
  }

  lemma StretchFits(t: Tape, marks: seq<Mark>)
    ensures Fitting(marks, t.StretchOf(marks))
  {
  }

  lemma ResolvedLength(t: Tape, marks: seq<Mark>)
    ensures |t.Resolved(marks)| == |marks|
  {
    StretchFits(t, marks);
    PiecedLength(marks, 0, t.StretchOf(marks));
  }

  // --------------------------------------------------------- marks all at shift 0

  /** Every match and every seam is unshifted. */
  predicate Level(marks: seq<Mark>) {
    forall i :: 0 <= i < |marks| ==>
      marks[i].shift == 0 && (marks[i].kind == Matched || marks[i].kind == Faint || marks[i].kind == Seam)
  }

  lemma {:induction false} LevelBefore(marks: seq<Mark>, index: nat)
    requires Level(marks) && index <= |marks|
    ensures ShiftBefore(marks, index) == 0
    decreases index
  {
    if index > 0 {
      LevelBefore(marks, index - 1);
    }
  }

  lemma {:induction false} LevelAfter(marks: seq<Mark>, index: nat)
    requires Level(marks)
    ensures ShiftAfter(marks, index).Some? ==> ShiftAfter(marks, index).value == 0
    decreases |marks| - index
  {
    if index < |marks| {
      LevelAfter(marks, index + 1);
    }
  }

  function ReadLevel(t: Tape, mark: Mark): Mark { if mark.kind == Faint then t.Read(mark, 0) else mark }

  /** What a mark of a faint stretch is read as. */
  lemma StretchIs(t: Tape, marks: seq<Mark>, first: nat, end: nat, j: nat, early: int, late: int)
    requires first <= j < end <= |marks| && ShiftBefore(marks, first) == early
    requires var after := ShiftAfter(marks, end); late == if after.Some? then after.value else early
    ensures var s := t.Split(marks, first, end, early, late);
            t.Stretch(marks, first, end)[j - first] == t.Read(marks[j], if j - first < s then early else late)
  {
  }

  /** A mark that isn't faint stays; a faint one is read with the stretch it is in. */
  ghost predicate ReadIn(t: Tape, marks: seq<Mark>, start: nat, j: nat, mark: Mark)
    requires j < |marks|
  {
    if marks[j].kind != Faint then mark == marks[j]
    else
      && start <= j && marks[start].kind == Faint && (start == 0 || marks[start - 1].kind != Faint)
      && j < RunEnd(marks, start, Faint) && mark == t.Stretch(marks, start, RunEnd(marks, start, Faint))[j - start]
  }

  lemma ReadInLevel(t: Tape, marks: seq<Mark>, start: nat, j: nat, mark: Mark)
    requires Level(marks) && j < |marks| && ReadIn(t, marks, start, j, mark)
    ensures mark == ReadLevel(t, marks[j])
  {
    if marks[j].kind == Faint {
      var end := RunEnd(marks, start, Faint);
      LevelBefore(marks, start);
      LevelAfter(marks, end);
      StretchIs(t, marks, start, end, j, 0, 0);
    }
  }

  /** Every mark is read with the stretch it is in. */
  ghost predicate AllRead(t: Tape, marks: seq<Mark>, read: seq<Mark>) {
    |read| == |marks| && forall j: nat :: j < |marks| ==> ReadSomewhere(t, marks, j, read[j])
  }

  ghost predicate ReadSomewhere(t: Tape, marks: seq<Mark>, j: nat, mark: Mark)
    requires j < |marks|
  {
    exists start: nat :: ReadIn(t, marks, start, j, mark)
  }

  lemma ResolvedReads(t: Tape, marks: seq<Mark>, read: seq<Mark>)
    requires read == t.Resolved(marks)
    ensures AllRead(t, marks, read)
  {
    assert |read| == |marks| by { ResolvedLength(t, marks); }
    forall j: nat | j < |marks| ensures ReadSomewhere(t, marks, j, read[j]) {
      ReadsSomewhere(t, marks, read, j);
    }
  }

  lemma ReadsSomewhere(t: Tape, marks: seq<Mark>, read: seq<Mark>, j: nat)
    requires read == t.Resolved(marks) && |read| == |marks| && j < |marks|
    ensures ReadSomewhere(t, marks, j, read[j])
  {
    StretchFits(t, marks);
    var start := StartsAt(marks, t.StretchOf(marks), read, j);
    InSomewhere(t, marks, start, j, read[j]);
  }

  lemma StartsAt(marks: seq<Mark>, stretch: (nat, nat) -> seq<Mark>, read: seq<Mark>, j: nat) returns (start: nat)
    requires Fitting(marks, stretch) && read == Pieced(marks, 0, stretch) && |read| == |marks| && j < |marks|
    ensures ReadBy(marks, stretch, start, j, read[j])
  {
    start := PiecedFrom(marks, 0, stretch, read, j);
  }

  lemma InSomewhere(t: Tape, marks: seq<Mark>, start: nat, j: nat, mark: Mark)
    requires j < |marks| && Fitting(marks, t.StretchOf(marks)) && ReadBy(marks, t.StretchOf(marks), start, j, mark)
    ensures ReadSomewhere(t, marks, j, mark)
  {
    ByIsIn(t, marks, start, j, mark);
  }

  lemma ByIsIn(t: Tape, marks: seq<Mark>, start: nat, j: nat, mark: Mark)
    requires j < |marks| && Fitting(marks, t.StretchOf(marks)) && ReadBy(marks, t.StretchOf(marks), start, j, mark)
    ensures ReadIn(t, marks, start, j, mark)
  {
  }

  ghost predicate ReadLevelAll(t: Tape, marks: seq<Mark>, read: seq<Mark>) {
    |read| == |marks| && forall i :: 0 <= i < |marks| ==> read[i] == ReadLevel(t, marks[i])
  }

  lemma ResolvedLevelAll(t: Tape, marks: seq<Mark>)
    requires Level(marks)
    ensures ReadLevelAll(t, marks, t.Resolved(marks))
  {
    ResolvedReads(t, marks, t.Resolved(marks));
    LevelReads(t, marks, t.Resolved(marks));
  }

  lemma LevelReads(t: Tape, marks: seq<Mark>, read: seq<Mark>)
    requires Level(marks) && AllRead(t, marks, read)
    ensures ReadLevelAll(t, marks, read)
  {
    forall j: nat | j < |marks| ensures read[j] == ReadLevel(t, marks[j]) {
      assert ReadSomewhere(t, marks, j, read[j]);
      var start: nat :| ReadIn(t, marks, start, j, read[j]);
      ReadInLevel(t, marks, start, j, read[j]);
    }
  }

  // --------------------------------------------------------------- one more step

  /** One step of the walk, once it is known what the millisecond is. */
  lemma StepAddsMark(t: Tape, w: Walk, at: nat, mark: Mark)
    requires w.Walk? && t.Marked(w.marks, w.shift, HeldNow(w), at) == Some(mark)
    ensures t.Step(w, at) == Walk(w.marks + [mark], if mark.kind == Matched then mark.shift else w.shift, HeldNow(w))
  {
  }
}
