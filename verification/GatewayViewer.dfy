/** The gateway and the catch-up together: whatever the server sends, and however
    often the connection is made again, a late window ends where the owner is. */
module GatewayViewer {
  import opened Frames
  import opened Gateway
  import opened GatewayRuns
  import opened CatchUp

  /** The frames the owner window was handed. */
  function Emitted(handed: seq<Handed>): seq<ServerFrame> {
    seq(|handed|, k requires 0 <= k < |handed| => handed[k].frame)
  }

  lemma {:induction false} BooksAreOrdered(counted: seq<Count>, handed: seq<Handed>)
    requires Contiguous(counted) && HandedOn(counted, handed)
    ensures Ordered(Emitted(handed))
    ensures counted != [] ==>
              handed != [] && handed[|handed| - 1].frame.s.Some?
              && handed[|handed| - 1].frame.s.value <= counted[|counted| - 1].s
    decreases |counted|
  {
    if counted != [] {
      var n, m := |counted| - 1, |handed| - 1;
      if counted[n].Counted? && !counted[n].known {
        BooksAreOrdered(counted[..n], handed);
      } else {
        BooksAreOrdered(counted[..n], handed[..m]);
        assert n > 0 ==> counted[..n] != [] && counted[..n][n - 1] == counted[n - 1];
        OneMore(handed);
      }
    }
  }

  /** One more frame keeps the stream in order. */
  lemma OneMore(handed: seq<Handed>)
    requires handed != [] && handed[|handed| - 1].frame.s.Some? && Ordered(Emitted(handed[..|handed| - 1]))
    requires var m := |handed| - 1;
             handed[m].frame.event.Ready?
             || (m > 0 && handed[m - 1].frame.s.Some? && handed[m - 1].frame.s.value < handed[m].frame.s.value)
    ensures Ordered(Emitted(handed))
  {
    var m := |handed| - 1;
    assert Emitted(handed)[..m] == Emitted(handed[..m]);
    assert forall k :: 0 <= k < m ==> Emitted(handed)[k] == Emitted(handed[..m])[k];
  }

  /** For every run of the gateway in which no session id comes twice, and every
      i <= n <= m, catching up on F[i..m] from a snapshot at n applies exactly
      F[n..m] and ends at the owner's position after m; later frames are admitted. */
  lemma LateWindowAgrees(inputs: seq<Input>, i: nat, n: nat, m: nat)
    requires var frames := Emitted(After(inputs).handed); FreshIds(frames) && i <= n <= m <= |frames|
    ensures var frames := Emitted(After(inputs).handed);
            var c := Folded(Owner(frames, n), frames[i..m], m - i);
            && c.apply == frames[n..m] && c.position == Owner(frames, m)
            && (m < |frames| ==> Admit(c.position, frames[m]))
            && (m > 0 ==> Ordered(frames) && forall a :: EpochStart(frames, m) < a < m ==> !Admit(c.position, frames[a]))
  {
    EveryRunAccounts(inputs);
    var l := After(inputs);
    BooksAreOrdered(l.counted, l.handed);
    CatchesUp(Emitted(l.handed), i, n, m);
    AdmitsOnce(Emitted(l.handed), m);
  }

  /** And from there on: with every later delivery the next frame or a repeat from the
      session the stream has come to, the late window has applied exactly the frames since
      its snapshot, each once and in order, and stands where the owner stands. */
  lemma LateWindowKeepsUp(inputs: seq<Input>, i: nat, n: nat, m: nat, heard: seq<nat>)
    requires var frames := Emitted(After(inputs).handed);
             FreshIds(frames) && i <= n <= m <= |frames| && Delivered(frames, m, heard)
    ensures var frames := Emitted(After(inputs).handed);
            var c := Folded(Owner(frames, n), frames[i..m], m - i);
            var (live, r) := (Followed(c.position, frames, heard), Furthest(m, heard));
            c.apply + live.apply == frames[n..r] && live.position == Owner(frames, r)
  {
    StreamIsOrdered(inputs);
    KeepsUp(Emitted(After(inputs).handed), i, n, m, heard);
  }

  lemma StreamIsOrdered(inputs: seq<Input>)
    ensures Ordered(Emitted(After(inputs).handed))
  {
    EveryRunAccounts(inputs);
    BooksAreOrdered(After(inputs).counted, After(inputs).handed);
  }
}
