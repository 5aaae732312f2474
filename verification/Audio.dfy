/**
 How much of a sound never reached the speaker: `missing` in
 scripts/linux-audio-check.py. Samples are real numbers; what 32-bit floats round
 away is not modelled.
 */
module Audio {
  import opened Common

  const BLOCK: nat := 48        // samples in a millisecond

  /** Samples in `n` milliseconds. */
  function Samples(n: nat): nat { 48 * n }

  const MATCH: real := 0.05     // how far off, relative to its energy, a block may be and still match
  const FLOOR: real := 0.000048 // energy below which a block is too quiet to place
  const HUSH: real := 0.00001   // a sample no louder than this is silent

  /** The squared difference a block of this energy may have and still be the reference's. */
  function Allowed(energy: real): real { 0.05 * energy }

  /** `FLOOR`, for part of a millisecond. */
  function FloorOf(length: nat): real { 0.000001 * length as real }

  const DRIFT: nat := 16
  const SKIP: nat := 24
  const EDGE: nat := 4

  // ------------------------------------------------------------------- samples

  function Sq(x: real): (r: real)
    ensures r >= 0.0
  {
    x * x
  }

  predicate Loud(x: real) { x > HUSH || x < -HUSH }

  predicate Silent(s: seq<real>) { forall i :: 0 <= i < |s| ==> !Loud(s[i]) }

  function Energy(s: seq<real>): (e: real)
    ensures e >= 0.0
  {
    EnergyTo(s, |s|)
  }

  function EnergyTo(s: seq<real>, n: nat): (e: real)
    requires n <= |s|
    ensures e >= 0.0
  {
    if n == 0 then 0.0 else EnergyTo(s, n - 1) + Sq(s[n - 1])
  }

  /** How many samples are loud enough to count. */
  function Heard(s: seq<real>): nat {
    HeardTo(s, |s|)
  }

  function HeardTo(s: seq<real>, n: nat): nat
    requires n <= |s|
  {
    if n == 0 then 0 else HeardTo(s, n - 1) + (if Loud(s[n - 1]) then 1 else 0)
  }

  /** The squared difference of the first `n` samples. */
  function DiffTo(a: seq<real>, b: seq<real>, n: nat): (d: real)
    requires n <= |a| && n <= |b|
    ensures d >= 0.0
  {
    if n == 0 then 0.0 else DiffTo(a, b, n - 1) + Sq(a[n - 1] - b[n - 1])
  }

  function Min(a: int, b: int): int { if a < b then a else b }
  function Max(a: int, b: int): int { if a > b then a else b }
  function Gap(a: int, b: int): nat { if a < b then b - a else a - b }

  // ----------------------------------------------------------------------- marks

  datatype Kind = Matched | Faint | Seam | Lost | Quiet

  /** One millisecond of the recording, from sample `at`: what became of it, and
      where in the reference it is (`at + shift`). A faint one's shift isn't used. */
  datatype Mark = Mark(kind: Kind, shift: int, at: nat)

  datatype Walk = Walk(marks: seq<Mark>, shift: int, held: nat) | Fault

  datatype Tape = Tape(recorded: seq<real>, reference: seq<real>) {

    /** The reference, followed by silence, from `from` to `to` or to the end of both. */
    function Padded(from: nat, to: nat): (s: seq<real>)
      requires from <= to
    {
      var end := |reference| + |recorded| + BLOCK;
      seq(Min(to, end) - Min(from, end), i => Sample(from + i))
    }

    function Sample(i: int): real { if 0 <= i < |reference| then reference[i] else 0.0 }

    /** The recording is marked a millisecond at a time: how many of them there are, */
    function Count(): nat {
      var n := |recorded|;
      if n % BLOCK != 0 && n > BLOCK then n / BLOCK + 1 else n / BLOCK
    }

    /** and where each begins; a last partial one is widened backwards. */
    function At(k: nat): (at: nat)
      requires k < Count()
      ensures at + BLOCK <= |recorded|
    {
      if k < |recorded| / BLOCK then Samples(k) else |recorded| - BLOCK
    }

    function Block(at: nat): seq<real> { recorded[Min(at, |recorded|)..Min(at + BLOCK, |recorded|)] }

    function There(at: int): seq<real> { Padded(Max(0, at), Max(0, at + BLOCK)) }

    /** How far the block is from the reference's samples from `at` on. */
    function Difference(block: seq<real>, at: nat): real {
      DiffTo(block, There(at), Min(|block|, |There(at)|))
    }

    predicate Matches(block: seq<real>, at: int) {
      at >= 0 && Difference(block, at) < Allowed(Energy(block))
    }

    // ------------------------------------------------------- placing a block

    /** The first of the best shifts in [lo, hi), if any makes the block the
        reference's, and the difference a better one would have to be under. */
    function Best(block: seq<real>, at: nat, lo: int, hi: int): (Option<int>, real)
      requires at + lo >= 0
      decreases hi - lo
    {
      if hi <= lo then (None, Allowed(Energy(block)))
      else
        var before, d := Best(block, at, lo, hi - 1), Difference(block, at + hi - 1);
        if d < before.1 then (Some(hi - 1), d) else before
    }

    function Find(block: seq<real>, at: nat, start: int, stop: int): Option<int> {
      Best(block, at, Max(start, 0 - at), Min(stop, |reference| - BLOCK - at + 1)).0
    }

    /** Whether some beginning of the block, of `length` samples or fewer but not too few,
        matches the reference from `at` on. */
    predicate StartsHere(block: seq<real>, at: int, length: nat)
      decreases length
    {
      if at < 0 || length < 2 * EDGE || length > |block| then false
      else
        var head := block[..length];
        var there := Padded(at, at + length);
        if Energy(head) < FloorOf(length) then false
        else if DiffTo(head, there, Min(|head|, |there|)) <= Allowed(Energy(head)) then true
        else StartsHere(block, at, length - EDGE)
    }

    predicate Edged(block: seq<real>) {
      Silent(block[..Min(EDGE, |block|)]) || Silent(block[Max(0, |block| - EDGE)..])
    }

    /** Near where it should be, or back by the quiet before it. */
    function Nearby(block: seq<real>, at: nat, shift: int, held: nat): Option<int> {
      var near := Find(block, at, shift - DRIFT, shift + DRIFT + 1);
      if near.None? && held > 0 then Find(block, at, shift - DRIFT - held, shift - DRIFT) else near
    }

    /** Where a block that doesn't match at `shift` is: nearby, or further on. */
    function Place(block: seq<real>, at: nat, shift: int, held: nat): Option<int> {
      if Edged(block) then None
      else
        var nearby := Nearby(block, at, shift, held);
        if nearby.Some? || StartsHere(block, at + shift, BLOCK - EDGE) then nearby
        else Find(block, at, shift + DRIFT + 1, |reference|)
    }

    /** What the millisecond at `at` is, after the marks so far; nothing if it is a
        third seam in a row. */
    function Marked(marks: seq<Mark>, shift: int, held: nat, at: nat): Option<Mark> {
      var block, n := Block(at), |marks|;
      if Energy(block) < FLOOR then Some(Mark(Faint, 0, at))
      else if Matches(block, at + shift) then Some(Mark(Matched, shift, at))
      else
        var found := Place(block, at, shift, held);
        if found.Some? then Some(Mark(Matched, found.value, at))
        else if n >= 2 && marks[n - 1].kind == Seam && marks[n - 2].kind == Seam then None
        else Some(Mark(Seam, shift, at))
    }

    function Step(w: Walk, at: nat): Walk
      requires w.Walk?
    {
      var held := HeldNow(w);
      var marked := Marked(w.marks, w.shift, held, at);
      if marked.None? then Fault
      else Walk(w.marks + [marked.value], if marked.value.kind == Matched then marked.value.shift else w.shift, held)
    }

    /** The recording's first `k` milliseconds, marked. */
    function Walked(k: nat): Walk
      requires k <= Count()
    {
      if k == 0 then Walk([], 0, 0)
      else
        var w := Walked(k - 1);
        if w.Fault? then Fault else Step(w, At(k - 1))
    }

    // ------------------------------------------------------------ faint stretches

    /** Whether the reference had sound at `at + shift` that the recording lacks. */
    predicate Silenced(at: nat, shift: int) {
      var here, there := Block(at), There(at + shift);
      if Silent(here) then Heard(there) > BLOCK / 2
      else Energy(there) >= Allowed(FLOOR) && Energy(there) > 4.0 * Energy(here)
    }

    /** Which marks of a stretch are in place of sound, read at `shift`. */
    function LostAt(marks: seq<Mark>, first: nat, end: nat, shift: int): (lost: seq<bool>)
      requires first <= end <= |marks|
      ensures |lost| == end - first
    {
      seq(end - first, k requires 0 <= k < end - first => Silenced(marks[first + k].at, shift))
    }

    /** Where the stretch is split: the first place where it loses least. */
    function Split(marks: seq<Mark>, first: nat, end: nat, early: int, late: int): nat
      requires first <= end <= |marks|
    {
      LeastSplit(LostAt(marks, first, end, early), LostAt(marks, first, end, late))
    }

    function Read(mark: Mark, shift: int): Mark { Mark(if Silenced(mark.at, shift) then Lost else Quiet, shift, mark.at) }

    /** A stretch read at `early` for `split` marks, and at `late` after them. */
    function ReadAt(marks: seq<Mark>, first: nat, end: nat, early: int, late: int, split: nat): seq<Mark>
      requires first <= end <= |marks|
    {
      seq(end - first, k requires 0 <= k < end - first => Read(marks[first + k], if k < split then early else late))
    }

    /** A faint stretch, read at the cheapest split. */
    function Stretch(marks: seq<Mark>, first: nat, end: nat): (read: seq<Mark>)
      requires first <= end <= |marks|
      ensures |read| == end - first
    {
      var early := ShiftBefore(marks, first);
      var after := ShiftAfter(marks, end);
      var late := if after.Some? then after.value else early;
      ReadAt(marks, first, end, early, late, Split(marks, first, end, early, late))
    }

    /** The reading of each faint stretch, by where it starts and ends. */
    function StretchOf(marks: seq<Mark>): (nat, nat) -> seq<Mark> {
      (first: nat, end: nat) => if first <= end <= |marks| then Stretch(marks, first, end) else []
    }

    /** The marks, with every faint stretch read. */
    function Resolved(marks: seq<Mark>): seq<Mark> { Pieced(marks, 0, StretchOf(marks)) }

    // ------------------------------------------------------------------- the seams

    predicate TailLost(shift: int) {
      var from := |recorded| + shift;
      0 <= from <= |reference| && Heard(reference[from..]) > BLOCK
    }

    /** The length of the silence a block opens with (`leading`) or closes with. */
    function Hushed(block: seq<real>, leading: bool): (n: nat)
      ensures n <= |block|
    {
      if block == [] then 0
      else if leading then if Loud(block[0]) then 0 else 1 + Hushed(block[1..], leading)
      else if Loud(block[|block| - 1]) then 0 else 1 + Hushed(block[..|block| - 1], leading)
    }

    /** Whether the block at `at` opens (`leading`) or closes with silence over something
        audible in the reference, and matches it in what is left. */
    predicate CutInside(at: nat, shift: int, leading: bool) {
      var block, there := Block(at), There(at + shift);
      if at + shift < 0 || |there| < BLOCK || |block| < BLOCK then false
      else
        var n := Hushed(block, leading);
        var m := |block| - n;
        var (gone, rest, real_) :=
          if leading then (there[..n], block[n..], there[n..BLOCK]) else (there[m..BLOCK], block[..m], there[..m]);
        var energy := if Energy(rest) < FLOOR then FLOOR else Energy(rest);
        n > 0 && !Silent(gone) && DiffTo(rest, real_, m) < Allowed(energy)
    }

    /** Whether the seams in [first, end) sit on a cut. */
    predicate OnCut(marks: seq<Mark>, first: nat, end: nat, tail: bool)
      requires first < end <= |marks|
    {
      var before, later := ShiftBefore(marks, first), ShiftAfter(marks, end);
      || (later.Some? && Gap(later.value, before) > SKIP)
      || (first > 0 && marks[first - 1].kind == Lost)
      || (end < |marks| && marks[end].kind == Lost)
      || (first > 0 && marks[first - 1].kind == Quiet && later.Some? && CutInside(marks[first].at, later.value, true))
      || (end < |marks| && marks[end].kind == Quiet && CutInside(marks[end - 1].at, before, false))
      || (end == |marks| && tail)
    }

    /** Every run of seams from `first` on: two at most, and on a cut. */
    predicate SeamsFit(marks: seq<Mark>, first: nat, tail: bool)
      decreases |marks| - first
    {
      if first >= |marks| then true
      else if marks[first].kind != Seam then SeamsFit(marks, first + 1, tail)
      else
        var end := RunEnd(marks, first, Seam);
        end - first <= 2 && OnCut(marks, first, end, tail) && SeamsFit(marks, end, tail)
    }

    // ------------------------------------------------------------------ the answer

    function Arrived(marks: seq<Mark>): nat {
      if marks == [] then 0
      else
        var m := marks[|marks| - 1];
        Arrived(marks[..|marks| - 1])
        + (if (m.kind == Matched || m.kind == Quiet) && m.at + m.shift < |reference| then 1 else 0)
    }

    /** What the marks, read to the end, amount to. */
    function Verdict(marks: seq<Mark>, shifts: seq<int>, tail: bool): Option<int>
      requires shifts != []
    {
      if !SeamsFit(marks, 0, tail) then None
      else if !(Skipped(shifts) || tail || Damaged(marks)) then Some(0)
      else
        var gone := Max(|reference| - Samples(Arrived(marks)), 0) + Paused(shifts);
        Some(if gone == 0 then 1 else gone)
    }

    /** The script's verdict on a recording: 0 for one with nothing missing, a count of
        samples for one with gaps, and no answer for any other fault. */
    function Missing(): Option<int> {
      var w := Walked(Count());
      if w.Fault? || Shifts(w.marks) == [] then None
      else Verdict(Resolved(w.marks), Shifts(w.marks), TailLost(w.shift))
    }
  }

  function Sum(flags: seq<bool>): nat {
    if flags == [] then 0 else Sum(flags[..|flags| - 1]) + (if flags[|flags| - 1] then 1 else 0)
  }

  /** What a stretch loses when it is read early up to `k` and late after. */
  function SplitCost(early: seq<bool>, late: seq<bool>, k: nat): nat
    requires k <= |early| == |late|
  {
    Sum(early[..k]) + Sum(late[k..])
  }

  function LeastSplit(early: seq<bool>, late: seq<bool>): nat
    requires |early| == |late|
  {
    FirstLeast(seq(|early| + 1, k requires 0 <= k <= |early| => SplitCost(early, late, k)))
  }

  /** Where the least of the costs is, and the first if there are several. */
  function FirstLeast(costs: seq<nat>): (k: nat)
    requires costs != []
    ensures k < |costs|
  {
    var n := |costs| - 1;
    if n == 0 then 0
    else
      var k := FirstLeast(costs[..n]);
      if costs[n] < costs[k] then n else k
  }

  /** The quiet, in samples, behind the block to be marked next. */
  function HeldNow(w: Walk): nat
    requires w.Walk?
  {
    var n := |w.marks|;
    if n > 0 && w.marks[n - 1].kind != Matched then w.held + BLOCK else 0
  }

  /** The shift of the last match before `index`, or 0. */
  function ShiftBefore(marks: seq<Mark>, index: nat): int
    requires index <= |marks|
  {
    if index == 0 then 0
    else if marks[index - 1].kind == Matched then marks[index - 1].shift
    else ShiftBefore(marks, index - 1)
  }

  /** The shift of the first match from `index` on. */
  function ShiftAfter(marks: seq<Mark>, index: nat): Option<int>
    decreases |marks| - index
  {
    if index >= |marks| then None
    else if marks[index].kind == Matched then Some(marks[index].shift)
    else ShiftAfter(marks, index + 1)
  }

  /** Where the run of `kind` that `first` is in ends. */
  function RunEnd(marks: seq<Mark>, first: nat, kind: Kind): (end: nat)
    requires first < |marks| && marks[first].kind == kind
    ensures first < end <= |marks|
    ensures forall k :: first <= k < end ==> marks[k].kind == kind
    ensures end < |marks| ==> marks[end].kind != kind
    decreases |marks| - first
  {
    if first + 1 < |marks| && marks[first + 1].kind == kind then RunEnd(marks, first + 1, kind) else first + 1
  }

  /** The marks from `first` on, with every faint stretch as `stretch` reads it. */
  function Pieced(marks: seq<Mark>, first: nat, stretch: (nat, nat) -> seq<Mark>): seq<Mark>
    decreases |marks| - first
  {
    if first >= |marks| then []
    else if marks[first].kind != Faint then [marks[first]] + Pieced(marks, first + 1, stretch)
    else
      var end := RunEnd(marks, first, Faint);
      stretch(first, end) + Pieced(marks, end, stretch)
  }

  function Shifts(marks: seq<Mark>): seq<int> {
    if marks == [] then []
    else
      var before := Shifts(marks[..|marks| - 1]);
      if marks[|marks| - 1].kind == Matched then before + [marks[|marks| - 1].shift] else before
  }

  predicate Skipped(shifts: seq<int>)
    requires shifts != []
  {
    shifts[0] > SKIP || exists i :: 0 < i < |shifts| && Gap(shifts[i - 1], shifts[i]) > SKIP
  }

  predicate Damaged(marks: seq<Mark>) { exists i :: 0 <= i < |marks| && (marks[i].kind == Lost || marks[i].kind == Seam) }

  function Paused(shifts: seq<int>): nat {
    if |shifts| < 2 then 0
    else
      var n := |shifts| - 1;
      var back := shifts[n - 1] - shifts[n];
      Paused(shifts[..n]) + (if back > SKIP then back else 0)
  }
}
