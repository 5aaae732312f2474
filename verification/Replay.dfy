/**
 Replay marking against a server that keeps its word: it answers `resume s` with
 `resumed n` and then the n frames after s, before anything newer. Sockets may
 drop at any moment, mid-replay too, and some ops may be unknown to the client.
 */
module Replay {
  import opened Common
  import opened Frames
  import opened Gateway

  const TOP: int := 0xFFFF_FFFF_FFFF_FFFF

  /** A socket: what is still on its way, and, for one the server resumed a
      session on, the last number it had given out when it accepted. */
  datatype Socket = Socket(queue: seq<Value>, resumedAt: Option<nat>)

  /** A frame handed on: its number and mark, and `resumedAt` of the socket it came by. */
  datatype Mark = Mark(number: nat, replayed: bool, resumedAt: Option<nat>)

  /** `ops[k]` is what the server numbered k + 1; `None` is an op the client
      doesn't know. `ready` carries number 0. */
  datatype Pair = Pair(ops: seq<Option<string>>, session: Option<Session>, socket: Option<Socket>, marks: seq<Mark>)

  function Numbered(ops: seq<Option<string>>, n: nat): Value
    requires 0 < n <= |ops| <= TOP
  {
    Value(Some(n as u64), if ops[n - 1].Some? then Some(Other(ops[n - 1].value)) else None)
  }

  /** The frames numbered from + 1 up to the newest. */
  function Since(ops: seq<Option<string>>, from: nat): (frames: seq<Value>)
    requires from <= |ops| <= TOP
  {
    seq(|ops| - from, k requires 0 <= k < |ops| - from => Numbered(ops, from + k + 1))
  }

  datatype Event =
    | Number(op: Option<string>)   // the server numbers a frame, and sends it if a socket is up
    | Drop                         // the socket dies, and what was on its way with it
    | Resume                       // the client asks to resume, and the server accepts
    | Identify(id: string)         // a fresh session, on a fresh socket
    | Expire                       // the server forgets the session: `invalid_session`
    | Receive                      // the client takes the next frame

  predicate Enabled(p: Pair, e: Event) {
    match e
    case Number(_) => |p.ops| < TOP
    case Drop => p.socket.Some?
    case Resume => p.socket.None? && p.session.Some? && p.session.value.lastSeq.Some?
                   && p.session.value.lastSeq.value as int <= |p.ops| <= TOP
    case Identify(_) => p.socket.None? && p.session.None?
    case Expire => p.socket.None?
    case Receive => p.socket.Some? && p.socket.value.queue != []
  }

  function Next(p: Pair, e: Event): Pair
    requires Enabled(p, e)
  {
    match e
    case Number(op) =>
      var ops := p.ops + [op];
      var socket := if p.socket.None? then None
                    else Some(p.socket.value.(queue := p.socket.value.queue + [Numbered(ops, |ops|)]));
      p.(ops := ops, socket := socket)
    case Drop => p.(socket := None)
    case Resume =>
      var last := p.session.value.lastSeq.value as nat;
      var answer := Value(None, Some(Resumed((|p.ops| - last) as u64)));
      p.(socket := Some(Socket([answer] + Since(p.ops, last), Some(|p.ops|))))
    case Identify(id) => p.(ops := [], socket := Some(Socket([Value(Some(0), Some(Ready(id)))], None)))
    case Expire => p.(session := None)
    case Receive =>
      var applied := Apply(p.session, p.socket.value.queue[0], p.socket.value.resumedAt.Some?);
      var marks := seq(|applied.handed|, k requires 0 <= k < |applied.handed| =>
        Mark(if applied.handed[k].frame.s.Some? then applied.handed[k].frame.s.value as nat else 0,
             applied.handed[k].replayed, p.socket.value.resumedAt));
      p.(session := applied.session, marks := p.marks + marks,
         socket := Some(p.socket.value.(queue := p.socket.value.queue[1..])))
  }

  function After(events: seq<Event>): Pair {
    if events == [] then Pair([], None, None, [])
    else
      var before := After(events[..|events| - 1]);
      var e := events[|events| - 1];
      if Enabled(before, e) then Next(before, e) else before
  }

  /** A frame is marked exactly when the server had numbered it before accepting. */
  predicate Right(mark: Mark) {
    mark.replayed <==> mark.resumedAt.Some? && mark.number <= mark.resumedAt.value
  }

  /** The opener's answer is still to come: a `ready`, or `resumed`. */
  ghost predicate Opening(p: Pair, socket: Socket)
    requires |p.ops| <= TOP
  {
    match socket.resumedAt
    case None =>
      p.session.None? && exists id :: socket.queue == [Value(Some(0), Some(Ready(id)))] + Since(p.ops, 0)
    case Some(accepted) =>
      && p.session.Some? && p.session.value.lastSeq.Some?
      && p.session.value.lastSeq.value as nat <= accepted <= |p.ops|
      && var last := p.session.value.lastSeq.value as nat;
         socket.queue == [Value(None, Some(Resumed((accepted - last) as u64)))] + Since(p.ops, last)
  }

  /** The answer is in, and what is on its way is exactly what the client lacks. */
  ghost predicate Flowing(p: Pair, socket: Socket)
    requires |p.ops| <= TOP
  {
    && p.session.Some? && p.session.value.lastSeq.Some? && p.session.value.lastSeq.value as nat <= |p.ops|
    && socket.queue == Since(p.ops, p.session.value.lastSeq.value as nat)
    && match socket.resumedAt
       case None => p.session.value.replayThrough.None?
       case Some(accepted) => accepted <= |p.ops| && p.session.value.replayThrough == Some(accepted as u64)
  }

  ghost predicate InStep(p: Pair) {
    && |p.ops| <= TOP
    && (p.session.Some? ==> p.session.value.lastSeq.Some? && p.session.value.lastSeq.value as nat <= |p.ops|)
    && (p.socket.Some? ==> Opening(p, p.socket.value) || Flowing(p, p.socket.value))
    && forall k :: 0 <= k < |p.marks| ==> Right(p.marks[k])
  }

  lemma SinceGrows(ops: seq<Option<string>>, op: Option<string>, from: nat)
    requires from <= |ops| < TOP
    ensures Since(ops + [op], from) == Since(ops, from) + [Numbered(ops + [op], |ops| + 1)]
  {
    var grown, was := Since(ops + [op], from), Since(ops, from);
    forall k | 0 <= k < |was| ensures grown[k] == was[k] {
      assert grown[k] == Numbered(ops + [op], from + k + 1) && was[k] == Numbered(ops, from + k + 1);
    }
    assert grown[|was|] == Numbered(ops + [op], |ops| + 1);
  }

  lemma SinceHead(ops: seq<Option<string>>, from: nat)
    requires from < |ops| <= TOP
    ensures Since(ops, from)[0] == Numbered(ops, from + 1) && Since(ops, from)[1..] == Since(ops, from + 1)
  {
  }

  lemma NumberKeeps(p: Pair, op: Option<string>)
    requires InStep(p) && |p.ops| < TOP
    ensures InStep(Next(p, Number(op)))
  {
    if p.socket.Some? {
      var socket := p.socket.value;
      var r := Next(p, Number(op));
      var last := if p.session.Some? then p.session.value.lastSeq.value as nat else 0;
      SinceGrows(p.ops, op, last);
      if Opening(p, socket) {
        if socket.resumedAt.None? {
          var id :| socket.queue == [Value(Some(0), Some(Ready(id)))] + Since(p.ops, 0);
          assert r.socket.value.queue == [Value(Some(0), Some(Ready(id)))] + Since(r.ops, 0);
        }
        assert Opening(r, r.socket.value);
      }
    }
  }

  lemma ReceiveKeeps(p: Pair)
    requires InStep(p) && Enabled(p, Receive)
    ensures InStep(Next(p, Receive))
  {
    var socket := p.socket.value;
    var r := Next(p, Receive);
    if Opening(p, socket) {
      assert Flowing(r, r.socket.value);
    } else {
      var last := p.session.value.lastSeq.value as nat;
      SinceHead(p.ops, last);
      assert Flowing(r, r.socket.value);
    }
  }

  lemma StepKeeps(p: Pair, e: Event)
    requires InStep(p) && Enabled(p, e)
    ensures InStep(Next(p, e))
  {
    match e
    case Number(op) => NumberKeeps(p, op);
    case Receive => ReceiveKeeps(p);
    case Identify(id) =>
      assert Next(p, e).socket.value.queue == [Value(Some(0), Some(Ready(id)))] + Since([], 0);
    case _ =>
  }

  /** A frame is marked replayed exactly when the server had numbered it before it
      accepted that resume, however often sockets drop and resume again. */
  lemma {:induction false} MarkedExactly(events: seq<Event>)
    ensures forall k :: 0 <= k < |After(events).marks| ==> Right(After(events).marks[k])
    ensures InStep(After(events))
  {
    if events != [] {
      var before := events[..|events| - 1];
      MarkedExactly(before);
      if Enabled(After(before), events[|events| - 1]) {
        StepKeeps(After(before), events[|events| - 1]);
      }
    }
  }
}
