/**
 `missing` as the script runs it: sums given up once they pass their bound, a
 search that only keeps looking for something better, and marks rewritten in place.
 Each is proved to give what the plain definitions in `Audio` give.
 */
module AudioCheck {
  import opened Common
  import opened Audio
  import opened AudioSound
  import opened AudioRead

  lemma {:induction false} DiffGrows(a: seq<real>, b: seq<real>, i: nat, n: nat)
    requires i <= n <= |a| && n <= |b|
    ensures DiffTo(a, b, i) <= DiffTo(a, b, n)
    decreases n
  {
    if i < n {
      DiffGrows(a, b, i, n - 1);
    }
  }

  lemma Quotient(d: real, best: real, energy: real)
    requires energy > 0.0 && d >= 0.0
    ensures (d / energy) * energy == d && d / energy >= 0.0
    ensures d / energy < best <==> d < best * energy
  {
    var q := d / energy;
    assert q * energy == d;
    assert q < best <==> (best - q) * energy > 0.0;
  }

  /** The relative difference, summed sample by sample and given up past `bound`. */
  method Error(t: Tape, block: seq<real>, energy: real, at: int, bound: real) returns (error: Option<real>)
    requires energy > 0.0 && bound >= 0.0
    ensures at < 0 ==> error.None?
    ensures at >= 0 ==> var d := t.Difference(block, at); error == if d > bound * energy then None else Some(d / energy)
  {
    if at < 0 {
      return None;
    }
    var limit, total, there := bound * energy, 0.0, t.There(at);
    var n := Min(|block|, |there|);
    for i := 0 to n
      invariant total == DiffTo(block, there, i) && total <= limit
    {
      total := total + Sq(block[i] - there[i]);
      if total > limit {
        DiffGrows(block, there, i + 1, n);
        return None;
      }
    }
    return Some(total / energy);
  }

  lemma MatchOf(energy: real)
    ensures MATCH * energy == Allowed(energy)
  {
  }

  /** Whether the block is the reference's at `at`. */
  method MatchesHere(t: Tape, block: seq<real>, energy: real, at: int) returns (matches: bool)
    requires energy == Energy(block) && energy > 0.0
    ensures matches == t.Matches(block, at)
  {
    var error := Error(t, block, energy, at, MATCH);
    matches := error.Some? && error.value < MATCH;
    if at >= 0 {
      Quotient(t.Difference(block, at), MATCH, energy);
      MatchOf(energy);
    }
  }

  /** Try one shift: it is taken when its difference is under `bar`, the best so far. */
  method Try(t: Tape, block: seq<real>, energy: real, at: nat, candidate: int, best: real, shift: Option<int>, ghost bar: real)
    returns (better: real, taken: Option<int>)
    requires energy > 0.0 && at + candidate >= 0 && best >= 0.0 && best * energy == bar
    ensures var d := t.Difference(block, at + candidate);
            taken == (if d < bar then Some(candidate) else shift) && better * energy == (if d < bar then d else bar)
    ensures better >= 0.0
  {
    ghost var d := t.Difference(block, at + candidate);
    var difference := Error(t, block, energy, at + candidate, best);
    Quotient(d, best, energy);
    if difference.Some? && difference.value < best {
      better, taken := difference.value, Some(candidate);
    } else {
      better, taken := best, shift;
    }
  }

  /** Search the shifts from `start` up to `stop`, keeping the best. */
  method FindShift(t: Tape, block: seq<real>, energy: real, at: nat, start: int, stop: int) returns (shift: Option<int>)
    requires energy == Energy(block) && energy > 0.0
    ensures shift == t.Find(block, at, start, stop)
  {
    var lo, hi := Max(start, 0 - at), Min(stop, |t.reference| - BLOCK - at + 1);
    var best, candidate := MATCH, lo;
    shift := None;
    MatchOf(energy);
    ghost var bar := Allowed(energy);
    while candidate < hi
      invariant lo <= candidate && (candidate <= hi || candidate == lo)
      invariant (shift, bar) == t.Best(block, at, lo, candidate)
      invariant best >= 0.0 && best * energy == bar
    {
      best, shift := Try(t, block, energy, at, candidate, best, shift, bar);
      bar := t.Best(block, at, lo, candidate + 1).1;
      candidate := candidate + 1;
    }
  }

  /** Whether two stretches differ by no more than `limit`, summed until it is passed. */
  method Within(head: seq<real>, there: seq<real>, limit: real) returns (within: bool)
    requires limit >= 0.0
    ensures within == (DiffTo(head, there, Min(|head|, |there|)) <= limit)
  {
    var total, n := 0.0, Min(|head|, |there|);
    for i := 0 to n
      invariant total == DiffTo(head, there, i) && total <= limit
    {
      total := total + Sq(head[i] - there[i]);
      if total > limit {
        DiffGrows(head, there, i + 1, n);
        return false;
      }
    }
    return true;
  }

  /** Try shorter and shorter beginnings of the block against the reference from `at` on. */
  method BeginsHere(t: Tape, block: seq<real>, at: int) returns (begins: bool)
    requires |block| == BLOCK
    ensures begins == t.StartsHere(block, at, BLOCK - EDGE)
  {
    if at < 0 {
      return false;
    }
    var length: nat := BLOCK - EDGE;
    while length >= EDGE * 2
      invariant length <= BLOCK - EDGE
      invariant t.StartsHere(block, at, BLOCK - EDGE) == t.StartsHere(block, at, length)
    {
      var head := block[..length];
      var energy := Energy(head);
      if energy < FloorOf(length) {
        return false;
      }
      begins := Within(head, t.Padded(at, at + length), Allowed(energy));
      if begins {
        return true;
      }
      length := length - EDGE;
    }
    return false;
  }

  /** Near where it should be, and then back by the quiet before it. */
  method FindNearby(t: Tape, block: seq<real>, energy: real, at: nat, shift: int, held: nat) returns (found: Option<int>)
    requires energy == Energy(block) && energy > 0.0
    ensures found == t.Nearby(block, at, shift, held)
  {
    found := FindShift(t, block, energy, at, shift - DRIFT, shift + DRIFT + 1);
    if found.None? && held > 0 {
      found := FindShift(t, block, energy, at, shift - DRIFT - held, shift - DRIFT);
    }
  }

  lemma EdgesOf(t: Tape, block: seq<real>)
    requires |block| == BLOCK
    ensures t.Edged(block) == (Silent(block[..EDGE]) || Silent(block[BLOCK - EDGE..]))
  {
  }

  /** Where a block that stopped matching went. */
  method PlaceBlock(t: Tape, block: seq<real>, energy: real, at: nat, shift: int, held: nat) returns (found: Option<int>)
    requires energy == Energy(block) && energy > 0.0 && |block| == BLOCK
    ensures found == t.Place(block, at, shift, held)
  {
    EdgesOf(t, block);
    if Silent(block[..EDGE]) || Silent(block[BLOCK - EDGE..]) {
      return None;
    }
    found := FindNearby(t, block, energy, at, shift, held);
    if found.None? {
      var begins := BeginsHere(t, block, at + shift);
      if !begins {
        found := FindShift(t, block, energy, at, shift + DRIFT + 1, |t.reference|);
      }
    }
  }

  lemma FaultStays(t: Tape, k: nat, n: nat)
    requires k <= n <= t.Count() && t.Walked(k).Fault?
    ensures t.Walked(n).Fault?
  {
    if t.Walked(n).Walk? {
      WalkedPrefix(t, k, n);
    }
  }

  /** What one millisecond is. */
  method MarkOne(t: Tape, marks: seq<Mark>, shift: int, held: nat, at: nat) returns (mark: Option<Mark>)
    requires at + BLOCK <= |t.recorded|
    ensures mark == t.Marked(marks, shift, held, at)
  {
    var block := t.recorded[at..at + BLOCK];
    var energy := Energy(block);
    var n := |marks|;
    assert block == t.Block(at);
    if energy < FLOOR {
      return Some(Mark(Faint, 0, at));
    }
    var matches := MatchesHere(t, block, energy, at + shift);
    if matches {
      return Some(Mark(Matched, shift, at));
    }
    var found := PlaceBlock(t, block, energy, at, shift, held);
    if found.Some? {
      return Some(Mark(Matched, found.value, at));
    }
    if n >= 2 && marks[n - 1].kind == Seam && marks[n - 2].kind == Seam {
      return None;
    }
    return Some(Mark(Seam, shift, at));
  }

  method EndOfRun(marks: seq<Mark>, first: nat, kind: Kind) returns (end: nat)
    requires first < |marks| && marks[first].kind == kind
    ensures end == RunEnd(marks, first, kind)
  {
    end := first + 1;
    while end < |marks| && marks[end].kind == kind
      invariant first < end <= |marks| && marks[end - 1].kind == kind
      invariant RunEnd(marks, end - 1, kind) == RunEnd(marks, first, kind)
    {
      end := end + 1;
    }
  }

  lemma WrittenOver(done: seq<Mark>, walked: seq<Mark>, marks: seq<Mark>, stretch: seq<Mark>)
    requires |done| + |stretch| <= |walked| && marks == done + walked[|done|..]
    ensures marks[..|done|] + stretch + marks[|done| + |stretch|..] == done + stretch + walked[|done| + |stretch|..]
  {
    assert marks[..|done|] == done;
    assert marks[|done| + |stretch|..] == walked[|done| + |stretch|..];
  }

  /** Write `stretch` over the marks from `first` on, the ones before it being done. */
  method Overwrite(marks: seq<Mark>, first: nat, stretch: seq<Mark>, ghost done: seq<Mark>, ghost walked: seq<Mark>)
    returns (written: seq<Mark>)
    requires first == |done| && first + |stretch| <= |walked| && marks == done + walked[first..]
    ensures written == done + stretch + walked[first + |stretch|..]
  {
    written := marks;
    for k := 0 to |stretch|
      invariant written == marks[..first] + stretch[..k] + marks[first + k..]
    {
      written := written[first + k := stretch[k]];
    }
    assert stretch[..|stretch|] == stretch;
    WrittenOver(done, walked, marks, stretch);
  }

  lemma Passes(done: seq<Mark>, read: seq<Mark>, rest: seq<Mark>, whole: seq<Mark>)
    requires whole == read + rest
    ensures (done + read) + rest == done + whole
  {
  }

  lemma OneMark(walked: seq<Mark>, done: seq<Mark>, first: nat)
    requires first < |walked|
    ensures done + walked[first..] == done + [walked[first]] + walked[first + 1..]
  {
    Passes(done, [walked[first]], walked[first + 1..], walked[first..]);
  }

  lemma PiecedOn(walked: seq<Mark>, first: nat, stretch: (nat, nat) -> seq<Mark>, done: seq<Mark>, read: seq<Mark>)
    requires first < |walked| && Fitting(walked, stretch) && read == Piece(walked, first, stretch)
    ensures 0 < |read| <= |walked| - first
    ensures (done + read) + Pieced(walked, first + |read|, stretch) == done + Pieced(walked, first, stretch)
  {
    PieceEnds(walked, first, stretch);
    Passes(done, read, Pieced(walked, first + |read|, stretch), Pieced(walked, first, stretch));
  }

  /** What one mark, or one faint stretch, is read as, and what is left to read. */
  method ReadOne(t: Tape, walked: seq<Mark>, first: nat, ghost done: seq<Mark>, ghost stretch: (nat, nat) -> seq<Mark>)
    returns (read: seq<Mark>)
    requires first < |walked| && stretch == t.StretchOf(walked)
    ensures 0 < |read| <= |walked| - first
    ensures walked[first].kind != Faint ==> read == [walked[first]]
    ensures (done + read) + Pieced(walked, first + |read|, stretch) == done + Pieced(walked, first, stretch)
  {
    if walked[first].kind != Faint {
      read := [walked[first]];
    } else {
      var end := EndOfRun(walked, first, Faint);
      read := t.Stretch(walked, first, end);
    }
    StretchFits(t, walked);
    PiecedOn(walked, first, stretch, done, read);
  }

  /** Write what was read over the marks, where it is anything new. */
  method WriteOne(walked: seq<Mark>, marks: seq<Mark>, first: nat, read: seq<Mark>, ghost done: seq<Mark>)
    returns (written: seq<Mark>)
    requires first == |done| && 0 < |read| <= |walked| - first && marks == done + walked[first..]
    requires marks[first].kind != Faint ==> read == [walked[first]]
    ensures written == done + read + walked[first + |read|..]
  {
    if marks[first].kind != Faint {
      OneMark(walked, done, first);
      return marks;
    }
    written := Overwrite(marks, first, read, done, walked);
  }

  /** Read every faint stretch, rewriting the marks in place. */
  method ReadFaint(t: Tape, walked: seq<Mark>) returns (marks: seq<Mark>)
    ensures marks == t.Resolved(walked)
  {
    marks := walked;
    var first: nat := 0;
    ghost var done: seq<Mark>, stretch := [], t.StretchOf(walked);
    while first < |marks|
      invariant first <= |walked| && |done| == first && marks == done + walked[first..]
      invariant done + Pieced(walked, first, stretch) == Pieced(walked, 0, stretch)
    {
      var read := ReadOne(t, walked, first, done, stretch);
      marks := WriteOne(walked, marks, first, read, done);
      done, first := done + read, first + |read|;
    }
  }

  /** Whether every run of seams sits on a cut, two at most. */
  method CheckSeams(t: Tape, marks: seq<Mark>, tail: bool) returns (fit: bool)
    ensures fit == t.SeamsFit(marks, 0, tail)
  {
    var first := 0;
    while first < |marks|
      invariant 0 <= first <= |marks| && t.SeamsFit(marks, 0, tail) == t.SeamsFit(marks, first, tail)
    {
      if marks[first].kind != Seam {
        first := first + 1;
        continue;
      }
      var end := EndOfRun(marks, first, Seam);
      if end - first > 2 {
        return false;
      }
      var cut := t.OnCut(marks, first, end, tail);
      if !cut {
        return false;
      }
      first := end;
    }
    return true;
  }

  /** Mark the next millisecond. */
  method MarkNext(t: Tape, w: Walk, at: nat) returns (next: Walk)
    requires w.Walk? && at + BLOCK <= |t.recorded|
    ensures next == t.Step(w, at)
  {
    var marks, shift, held := w.marks, w.shift, w.held;
    held := if marks != [] && marks[|marks| - 1].kind != Matched then held + BLOCK else 0;
    var mark := MarkOne(t, marks, shift, held, at);
    if mark.None? {
      return Fault;
    }
    if mark.value.kind == Matched {
      shift := mark.value.shift;
    }
    return Walk(marks + [mark.value], shift, held);
  }

  /** Mark every millisecond, in order. */
  method MarkAll(t: Tape) returns (w: Walk)
    ensures w == t.Walked(t.Count())
  {
    w := Walk([], 0, 0);
    for k := 0 to t.Count()
      invariant w.Walk? && w == t.Walked(k)
    {
      w := MarkNext(t, w, t.At(k));
      if w.Fault? {
        FaultStays(t, k + 1, t.Count());
        return;
      }
    }
  }

  /** What the marks amount to. */
  method Judge(t: Tape, marks: seq<Mark>, shifts: seq<int>, tail: bool) returns (answer: Option<int>)
    requires shifts != []
    ensures answer == t.Verdict(marks, shifts, tail)
  {
    var fit := CheckSeams(t, marks, tail);
    if !fit {
      return None;
    }
    if !(Skipped(shifts) || tail || Damaged(marks)) {
      return Some(0);
    }
    var arrived := Samples(t.Arrived(marks));
    var gone := Max(|t.reference| - arrived, 0) + Paused(shifts);
    return Some(if gone == 0 then 1 else gone);
  }

  /** `missing`. */
  method CountMissing(t: Tape) returns (answer: Option<int>)
    ensures answer == t.Missing()
  {
    var w := MarkAll(t);
    if w.Fault? {
      return None;
    }
    var shifts := Shifts(w.marks);
    if shifts == [] {
      return None;
    }
    var marks := ReadFaint(t, w.marks);
    answer := Judge(t, marks, shifts, t.TailLost(w.shift));
  }
}
