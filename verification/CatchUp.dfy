/**
 Joining a stream of frames late, from a snapshot (client/src/lib/catchup.ts): the fold
 over the frames buffered meanwhile, and the proof that nothing is missed or doubled.
 */
module CatchUp {
  import opened Common
  import opened Frames

  /** A place in the stream: the session begun last, and the number applied last in it. */
  datatype Position = Position(epoch: Option<string>, last: Option<u64>)

  const START := Position(None, None)

  function Advance(p: Position, frame: ServerFrame): Position {
    if frame.event.Ready? then Position(Some(frame.event.sessionId), frame.s)
    else if frame.s.None? then p
    else Position(p.epoch, frame.s)
  }

  predicate IsNew(p: Position, frame: ServerFrame) {
    frame.s.None? || p.last.None? || frame.s.value > p.last.value
  }

  predicate Admit(p: Position, frame: ServerFrame) { frame.event.Ready? || IsNew(p, frame) }

  predicate Begins(frame: ServerFrame, epoch: Option<string>) {
    frame.event.Ready? && Some(frame.event.sessionId) == epoch
  }

  // ------------------------------------------------------------ the catch-up

  datatype Caught = Caught(apply: seq<ServerFrame>, position: Position, beyond: bool)

  /** The buffer's own `ready` of the snapshot, or -1. */
  function OwnReady(mark: Position, buffered: seq<ServerFrame>): (own: int)
    ensures -1 <= own < |buffered|
    ensures own >= 0 ==> Begins(buffered[own], mark.epoch)
    ensures forall k :: 0 <= k < (if own >= 0 then own else |buffered|) ==> !Begins(buffered[k], mark.epoch)
  {
    FirstReady(mark, buffered, 0)
  }

  function FirstReady(mark: Position, buffered: seq<ServerFrame>, from: nat): (own: int)
    requires from <= |buffered|
    requires forall k :: 0 <= k < from ==> !Begins(buffered[k], mark.epoch)
    ensures -1 <= own < |buffered|
    ensures own >= 0 ==> Begins(buffered[own], mark.epoch)
    ensures forall k :: 0 <= k < (if own >= 0 then own else |buffered|) ==> !Begins(buffered[k], mark.epoch)
    decreases |buffered| - from
  {
    if from == |buffered| then -1
    else if Begins(buffered[from], mark.epoch) then from
    else FirstReady(mark, buffered, from + 1)
  }

  /** What the first `k` buffered frames bring on top of a snapshot at `mark`. */
  function Folded(mark: Position, buffered: seq<ServerFrame>, k: nat): Caught
    requires k <= |buffered|
  {
    if k == 0 then Caught([], mark, false)
    else
      var c := Folded(mark, buffered, k - 1);
      if k - 1 <= OwnReady(mark, buffered) then c else Fold(mark, c, buffered[k - 1])
  }

  /** One frame that comes after the snapshot's own `ready`. */
  function Fold(mark: Position, c: Caught, frame: ServerFrame): Caught {
    var beyond := c.beyond || (frame.event.Ready? && !Begins(frame, mark.epoch));
    if beyond || IsNew(c.position, frame)
    then Caught(c.apply + [frame], Advance(c.position, frame), beyond)
    else c.(beyond := beyond)
  }

  method Catch(mark: Position, buffered: seq<ServerFrame>) returns (apply: seq<ServerFrame>, position: Position)
    ensures var c := Folded(mark, buffered, |buffered|); apply == c.apply && position == c.position
  {
    var own := -1;
    if mark.epoch.Some? {
      var at := 0;
      while at < |buffered| && own < 0
        invariant 0 <= at <= |buffered| && -1 <= own < |buffered|
        invariant own < 0 ==> forall k :: 0 <= k < at ==> !Begins(buffered[k], mark.epoch)
        invariant own >= 0 ==> own == OwnReady(mark, buffered)
      {
        if Begins(buffered[at], mark.epoch) {
          own := at;
        }
        at := at + 1;
      }
    }
    apply, position := [], mark;
    var beyond := false;
    for index := 0 to |buffered|
      invariant own == OwnReady(mark, buffered)
      invariant Caught(apply, position, beyond) == Folded(mark, buffered, index)
    {
      var frame := buffered[index];
      if index <= own {
        continue;
      }
      if frame.event.Ready? && Some(frame.event.sessionId) != mark.epoch {
        beyond := true;
      }
      if beyond || IsNew(position, frame) {
        apply := apply + [frame];
        position := Advance(position, frame);
      }
    }
  }

  // ------------------------------------------------------- well-formed streams

  /** A stream as the gateway hands it on: it begins with a `ready`, every frame is
      numbered, and numbers grow within a session. */
  ghost predicate Ordered(frames: seq<ServerFrame>) {
    && (frames != [] ==> frames[0].event.Ready?)
    && (forall k :: 0 <= k < |frames| ==> frames[k].s.Some?)
    && (forall k {:trigger frames[k]} :: 0 < k < |frames| && !frames[k].event.Ready? ==>
          frames[k - 1].s.value < frames[k].s.value)
  }

  /** Session ids are fresh: no two `ready` frames carry the same one. */
  ghost predicate FreshIds(frames: seq<ServerFrame>) {
    forall j, k :: 0 <= j < k < |frames| && frames[j].event.Ready? && frames[k].event.Ready? ==>
      frames[j].event.sessionId != frames[k].event.sessionId
  }

  /** The owner's position after the first `n` frames. */
  function Owner(frames: seq<ServerFrame>, n: nat): Position
    requires n <= |frames|
  {
    if n == 0 then START else Advance(Owner(frames, n - 1), frames[n - 1])
  }

  /** The `ready` of the session frame `n` would belong to. */
  function EpochStart(frames: seq<ServerFrame>, n: nat): (r: nat)
    requires 0 < n <= |frames| && frames[0].event.Ready?
    ensures r < n && frames[r].event.Ready?
    ensures forall k :: r < k < n ==> !frames[k].event.Ready?
  {
    if frames[n - 1].event.Ready? then n - 1 else EpochStart(frames, n - 1)
  }

  lemma {:induction false} OwnerStands(frames: seq<ServerFrame>, n: nat)
    requires Ordered(frames) && 0 < n <= |frames|
    ensures Owner(frames, n) ==
            Position(Some(frames[EpochStart(frames, n)].event.sessionId), frames[n - 1].s)
  {
    if !frames[n - 1].event.Ready? {
      OwnerStands(frames, n - 1);
    }
  }

  lemma {:induction false} GrowsWithin(frames: seq<ServerFrame>, a: nat, b: nat)
    requires Ordered(frames) && a <= b < |frames|
    requires forall k :: a < k <= b ==> !frames[k].event.Ready?
    ensures frames[a].s.value <= frames[b].s.value
    ensures a < b ==> frames[a].s.value < frames[b].s.value
    decreases b
  {
    if a < b {
      GrowsWithin(frames, a, b - 1);
    }
  }

  ghost predicate NewSession(frames: seq<ServerFrame>, n: nat, g: nat)
    requires n <= g <= |frames|
  {
    exists k :: n <= k < g && frames[k].event.Ready?
  }

  lemma FindsOwnReady(frames: seq<ServerFrame>, i: nat, r: nat, m: nat, mark: Position)
    requires FreshIds(frames) && i <= r < m <= |frames| && Begins(frames[r], mark.epoch)
    ensures OwnReady(mark, frames[i..m]) == r - i
  {
    var buffered := frames[i..m];
    var own := OwnReady(mark, buffered);
    assert Begins(buffered[r - i], mark.epoch);
    assert buffered[own] == frames[i + own];
  }

  /** Frame `g` of the buffer, before the snapshot at `n`: the snapshot has it. */
  lemma Dropped(frames: seq<ServerFrame>, i: nat, n: nat, m: nat, g: nat)
    requires Ordered(frames) && FreshIds(frames) && i <= g < n <= m <= |frames|
    ensures var mark := Owner(frames, n);
            || g - i <= OwnReady(mark, frames[i..m])
            || (!frames[g].event.Ready? && !IsNew(mark, frames[g]))
  {
    var r := EpochStart(frames, n);
    OwnerStands(frames, n);
    if g <= r {
      FindsOwnReady(frames, i, r, m, Owner(frames, n));
    } else {
      GrowsWithin(frames, g, n - 1);
    }
  }

  /** Frame `g` of the buffer, from the snapshot on: it isn't behind the snapshot's `ready`. */
  lemma NotOwn(frames: seq<ServerFrame>, i: nat, n: nat, m: nat, g: nat)
    requires Ordered(frames) && FreshIds(frames) && i <= n <= g < m <= |frames|
    ensures g - i > OwnReady(Owner(frames, n), frames[i..m])
    ensures !Begins(frames[g], Owner(frames, n).epoch)
  {
    NotBegun(frames, n, g);
    var own := OwnReady(Owner(frames, n), frames[i..m]);
    if own >= 0 {
      assert frames[i..m][own] == frames[i + own];
      if i + own > g {
        NotBegun(frames, n, i + own);
      }
    }
  }

  /** The owner's session at `n` did not begin later. */
  lemma NotBegun(frames: seq<ServerFrame>, n: nat, g: nat)
    requires Ordered(frames) && FreshIds(frames) && n <= g < |frames|
    ensures !Begins(frames[g], Owner(frames, n).epoch)
  {
    if n > 0 {
      OwnerStands(frames, n);
    }
  }

  lemma {:induction false} FoldsExactly(frames: seq<ServerFrame>, i: nat, n: nat, m: nat, k: nat)
    requires Ordered(frames) && FreshIds(frames) && i <= n <= m <= |frames| && k <= m - i
    ensures var c := Folded(Owner(frames, n), frames[i..m], k);
            c == Behind(frames, n, Reach(i, n, k))
    decreases k
  {
    forall j: nat | 0 < j <= m - i && FoldsTo(frames, i, n, m, j - 1) ensures FoldsTo(frames, i, n, m, j) {
      FoldsOne(frames, i, n, m, j);
    }
    FoldsByOne(frames, i, n, m, k);
  }

  /** The first `k` buffered frames fold to the frames since the snapshot. */
  ghost predicate FoldsTo(frames: seq<ServerFrame>, i: nat, n: nat, m: nat, k: nat)
    requires i <= n <= m <= |frames| && k <= m - i
  {
    Folded(Owner(frames, n), frames[i..m], k) == Behind(frames, n, Reach(i, n, k))
  }

  lemma {:induction false} FoldsByOne(frames: seq<ServerFrame>, i: nat, n: nat, m: nat, k: nat)
    requires i <= n <= m <= |frames| && k <= m - i
    requires forall j: nat :: 0 < j <= m - i && FoldsTo(frames, i, n, m, j - 1) ==> FoldsTo(frames, i, n, m, j)
    ensures FoldsTo(frames, i, n, m, k)
    decreases k
  {
    if k == 0 {
      FoldsNone(frames, n, frames[i..m]);
    } else {
      FoldsByOne(frames, i, n, m, k - 1);
    }
  }

  /** How far the first `k` frames of a buffer from `i` reach, on top of a snapshot at `n`. */
  function Reach(i: nat, n: nat, k: nat): nat { if i + k <= n then n else i + k }

  lemma FoldsOne(frames: seq<ServerFrame>, i: nat, n: nat, m: nat, k: nat)
    requires Ordered(frames) && FreshIds(frames) && i <= n <= m <= |frames| && 0 < k <= m - i
    requires Folded(Owner(frames, n), frames[i..m], k - 1) == Behind(frames, n, Reach(i, n, k - 1))
    ensures Folded(Owner(frames, n), frames[i..m], k) == Behind(frames, n, Reach(i, n, k))
  {
    if i + k <= n {
      FoldsNothing(frames, i, n, m, k);
    } else {
      FoldsOn(frames, i, n, m, k);
    }
  }

  lemma FoldsNone(frames: seq<ServerFrame>, n: nat, buffered: seq<ServerFrame>)
    requires n <= |frames|
    ensures Folded(Owner(frames, n), buffered, 0) == Behind(frames, n, n)
  {
  }

  /** A frame the snapshot lacks is applied. */
  lemma FoldsOn(frames: seq<ServerFrame>, i: nat, n: nat, m: nat, k: nat)
    requires Ordered(frames) && FreshIds(frames) && i <= n < i + k <= m <= |frames|
    requires Folded(Owner(frames, n), frames[i..m], k - 1) == Behind(frames, n, i + k - 1)
    ensures Folded(Owner(frames, n), frames[i..m], k) == Behind(frames, n, i + k)
  {
    var g := i + k - 1;
    assert frames[i..m][k - 1] == frames[g];
    NotOwn(frames, i, n, m, g);
    FoldsNext(frames, n, g);
  }

  /** A frame the snapshot has adds nothing. */
  lemma FoldsNothing(frames: seq<ServerFrame>, i: nat, n: nat, m: nat, k: nat)
    requires Ordered(frames) && FreshIds(frames) && i <= n <= m <= |frames| && 0 < k && i + k <= n
    requires Folded(Owner(frames, n), frames[i..m], k - 1) == Behind(frames, n, n)
    ensures Folded(Owner(frames, n), frames[i..m], k) == Behind(frames, n, n)
  {
    var g := i + k - 1;
    assert frames[i..m][k - 1] == frames[g];
    Dropped(frames, i, n, m, g);
  }

  ghost function Behind(frames: seq<ServerFrame>, n: nat, g: nat): Caught
    requires n <= g <= |frames|
  {
    Caught(frames[n..g], Owner(frames, g), NewSession(frames, n, g))
  }

  /** Frame `g`, from the snapshot at `n` on, is applied. */
  lemma FoldsNext(frames: seq<ServerFrame>, n: nat, g: nat)
    requires Ordered(frames) && n <= g < |frames| && !Begins(frames[g], Owner(frames, n).epoch)
    ensures Fold(Owner(frames, n), Behind(frames, n, g), frames[g]) == Behind(frames, n, g + 1)
  {
    assert frames[n..g] + [frames[g]] == frames[n..g + 1];
    assert NewSession(frames, n, g + 1) == (NewSession(frames, n, g) || frames[g].event.Ready?);
    if n == 0 && g > 0 {
      assert NewSession(frames, n, g);
    }
    if g > 0 {
      OwnerStands(frames, g);
    }
  }

  /** Listening from frame `i`, with a snapshot at `n` and an answer at `m`, a viewer
      applies exactly the frames it lacks and stands where the owner stands. */
  lemma CatchesUp(frames: seq<ServerFrame>, i: nat, n: nat, m: nat)
    requires Ordered(frames) && FreshIds(frames) && i <= n <= m <= |frames|
    ensures var c := Folded(Owner(frames, n), frames[i..m], m - i);
            c.apply == frames[n..m] && c.position == Owner(frames, m)
  {
    assert Reach(i, n, m - i) == m;
    assert Folded(Owner(frames, n), frames[i..m], m - i) == Behind(frames, n, m) by {
      FoldsExactly(frames, i, n, m, m - i);
    }
  }

  /** From there, each later frame is admitted once, and a frame of the current
      session already applied is refused. */
  lemma {:induction false} AdmitsOnce(frames: seq<ServerFrame>, m: nat)
    requires Ordered(frames) && m <= |frames|
    ensures m < |frames| ==> Admit(Owner(frames, m), frames[m])
    ensures m > 0 ==> forall a :: EpochStart(frames, m) < a < m ==> !Admit(Owner(frames, m), frames[a])
  {
    if m > 0 {
      OwnerStands(frames, m);
      forall a | EpochStart(frames, m) < a < m ensures !Admit(Owner(frames, m), frames[a]) {
        Refuses(frames, m, a);
      }
    }
  }

  // ------------------------------------------------------------- from then on

  /** What a viewer has applied of the live frames, and where it stands. */
  datatype Viewer = Viewer(apply: seq<ServerFrame>, position: Position)

  function Hear(v: Viewer, frame: ServerFrame): Viewer {
    if Admit(v.position, frame) then Viewer(v.apply + [frame], Advance(v.position, frame)) else v
  }

  /** The viewer at `position` once the frames `heard` names have come, in that order. */
  function Followed(position: Position, frames: seq<ServerFrame>, heard: seq<nat>): Viewer
    requires forall k :: 0 <= k < |heard| ==> heard[k] < |frames|
  {
    if heard == [] then Viewer([], position)
    else Hear(Followed(position, frames, heard[..|heard| - 1]), frames[heard[|heard| - 1]])
  }

  /** How far the stream has come, each delivery being its next frame or an old one. */
  function Furthest(m: nat, heard: seq<nat>): nat {
    if heard == [] then m
    else
      var r := Furthest(m, heard[..|heard| - 1]);
      if heard[|heard| - 1] == r then r + 1 else r
  }

  /** Every delivery is the next frame of the stream, or repeats one of the session it
      has come to, other than its `ready`. */
  ghost predicate Delivered(frames: seq<ServerFrame>, m: nat, heard: seq<nat>)
    requires m <= |frames|
    ensures Delivered(frames, m, heard) ==>
              Furthest(m, heard) <= |frames| && m <= Furthest(m, heard) && forall k :: 0 <= k < |heard| ==> heard[k] < |frames|
  {
    heard == [] ||
    (var n := |heard| - 1;
     && Delivered(frames, m, heard[..n])
     && var r := Furthest(m, heard[..n]);
        && heard[n] < |frames|
        && (heard[n] == r || (0 < r && frames[0].event.Ready? && EpochStart(frames, r) < heard[n] < r)))
  }

  /** However often frames are repeated, the viewer applies each of the stream once, in
      order, and stands where the owner stands. */
  lemma {:induction false} LiveAppliesOnce(frames: seq<ServerFrame>, m: nat, heard: seq<nat>)
    requires Ordered(frames) && m <= |frames| && Delivered(frames, m, heard)
    ensures var r := Furthest(m, heard);
            Followed(Owner(frames, m), frames, heard) == Viewer(frames[m..r], Owner(frames, r))
    decreases |heard|
  {
    if heard != [] {
      var n := |heard| - 1;
      LiveAppliesOnce(frames, m, heard[..n]);
      HearsOne(frames, m, Furthest(m, heard[..n]), heard[n]);
    }
  }

  /** The catch-up and what comes after it, together. */
  lemma KeepsUp(frames: seq<ServerFrame>, i: nat, n: nat, m: nat, heard: seq<nat>)
    requires Ordered(frames) && FreshIds(frames) && i <= n <= m <= |frames| && Delivered(frames, m, heard)
    ensures var c := Folded(Owner(frames, n), frames[i..m], m - i);
            var (live, r) := (Followed(c.position, frames, heard), Furthest(m, heard));
            c.apply + live.apply == frames[n..r] && live.position == Owner(frames, r)
  {
    var c, r := Folded(Owner(frames, n), frames[i..m], m - i), Furthest(m, heard);
    assert c.apply == frames[n..m] && c.position == Owner(frames, m) by { CatchesUp(frames, i, n, m); }
    assert Followed(c.position, frames, heard) == Viewer(frames[m..r], Owner(frames, r)) by { LiveAppliesOnce(frames, m, heard); }
    Joined(frames, n, m, r);
  }

  lemma Joined(frames: seq<ServerFrame>, n: nat, m: nat, r: nat)
    requires n <= m <= r <= |frames|
    ensures frames[n..m] + frames[m..r] == frames[n..r]
  {
  }

  lemma HearsOne(frames: seq<ServerFrame>, m: nat, r: nat, g: nat)
    requires Ordered(frames) && m <= r <= |frames| && g < |frames|
    requires g == r || (0 < r && EpochStart(frames, r) < g < r)
    ensures var s := if g == r then r + 1 else r;
            Hear(Viewer(frames[m..r], Owner(frames, r)), frames[g]) == Viewer(frames[m..s], Owner(frames, s))
  {
    AdmitsOnce(frames, r);
    if g == r {
      assert frames[m..r] + [frames[r]] == frames[m..r + 1];
    }
  }

  lemma Refuses(frames: seq<ServerFrame>, m: nat, a: nat)
    requires Ordered(frames) && 0 < m <= |frames| && EpochStart(frames, m) < a < m
    ensures !Admit(Owner(frames, m), frames[a])
  {
    assert Owner(frames, m).last == frames[m - 1].s by { OwnerStands(frames, m); }
    assert !frames[a].event.Ready? && frames[a].s.value <= frames[m - 1].s.value by {
      var r := EpochStart(frames, m);
      assert forall k :: a < k <= m - 1 ==> !frames[k].event.Ready?;
      GrowsWithin(frames, a, m - 1);
    }
    assert frames[a].s.Some? && frames[m - 1].s.Some?;
  }
}
