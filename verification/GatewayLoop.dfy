/** How the connection loop of the gateway client goes on: which frames end a
    connection, what a run keeps of the session, the token and the backoff, and what it
    knows of its socket and its queue, each told from the inputs so far. */
module GatewayLoop {
  import opened Common
  import opened Frames
  import opened Gateway

  // ---------------------------------------------------- what ends a connection

  predicate IsReady(value: Value) { value.typed.Some? && value.typed.value.Ready? && value.s.Some? }

  predicate IsResumed(value: Value) { value.typed.Some? && value.typed.value.Resumed? }

  predicate IsInvalid(value: Value) { value.typed.Some? && value.typed.value.InvalidSession? }

  /** A frame that is counted: of any op that has no meaning of its own, known or not. */
  predicate IsCounted(value: Value) { value.s.Some? && (value.typed.None? || value.typed.value.Other?) }

  /** A counted frame beyond the next number of the open session. */
  predicate IsHole(session: Option<Session>, value: Value) {
    && IsCounted(value) && session.Some? && session.value.lastSeq.Some?
    && value.s.value as int > session.value.lastSeq.value as int + 1
  }

  /** A frame ends its connection exactly when it is a hole or an `invalid_session`, and
      takes the handshake for done exactly when it is a numbered `ready` or a `resumed`. */
  lemma AnswersExactly(session: Option<Session>, value: Value, resuming: bool)
    ensures var step := Apply(session, value, resuming).step;
            && (step.Out? <==> IsHole(session, value) || IsInvalid(value))
            && (step.Live? <==> IsReady(value) || IsResumed(value))
            && (step.Live? ==> step.resumed == IsResumed(value))
  {
  }

  /** The session goes with one frame exactly when it left a hole, or the server refused it
      for another reason than the token, or refused to resume it. */
  predicate EndsSession(l: Link, i: Input) {
    && i.Frame? && l.phase.Open?
    && (IsHole(l.session, i.value)
        || (IsInvalid(i.value) && (l.phase.resuming || i.value.typed.value.reason != "unauthenticated")))
  }

  lemma SessionEndsExactlyWhen(l: Link, i: Input)
    requires Enabled(l, i) && l.session.Some?
    ensures Next(l, i).session.None? <==> EndsSession(l, i)
  {
    if i.Frame? {
      AnswersExactly(l.session, i.value, l.phase.resuming);
    }
  }

  /** After a hole there is no session, the loop is back at its top, and nothing of the
      frame was handed on or counted. */
  lemma HoleRestarts(l: Link, value: Value, writes: bool)
    requires l.phase.Open? && IsHole(l.session, value)
    ensures var r := Next(l, Frame(value, writes));
            && r.session.None? && r.phase == Checking && r.hasToken == l.hasToken && r.attempt == l.attempt
            && r.handed == l.handed && r.counted == l.counted
  {
    assert l.handed + [] == l.handed && l.counted + [] == l.counted;
  }

  /** What is kept after the server refused the session. */
  lemma RefusalKeeps(l: Link, value: Value, writes: bool)
    requires l.phase.Open? && IsInvalid(value)
    ensures var r := Next(l, Frame(value, writes));
            && r.handed == l.handed && r.counted == l.counted
            && (if l.phase.resuming then r.session.None? && r.hasToken == l.hasToken && r.phase == Checking && r.attempt == l.attempt
                else if value.typed.value.reason == "unauthenticated" then r.session == l.session && !r.hasToken
                else r.session.None? && r.hasToken == l.hasToken)
  {
    assert l.handed + [] == l.handed && l.counted + [] == l.counted;
  }

  lemma WithoutASession(l: Link, i: Input)
    requires Enabled(l, i) && l.session.None? && !(i.Frame? && IsReady(i.value))
    ensures Next(l, i).session.None? && Next(l, i).handed == l.handed
  {
    if i.Frame? {
      NothingToCountIn(i.value, l.phase.resuming);
      FrameHands(l, i.value, i.writes);
      assert l.handed + [] == l.handed;
    }
  }

  lemma NothingToCountIn(value: Value, resuming: bool)
    requires !IsReady(value)
    ensures var a := Apply(None, value, resuming); a.session.None? && a.handed == []
  {
  }

  lemma FrameHands(l: Link, value: Value, writes: bool)
    requires l.phase.Open?
    ensures var (a, r) := (Apply(l.session, value, l.phase.resuming), OnFrame(l, value, writes));
            r.handed == l.handed + a.handed && (r.session == a.session || r.session.None?)
  {
  }

  lemma AfterOne(inputs: seq<Input>, i: Input)
    ensures After(inputs + [i]) == var l := After(inputs); if Enabled(l, i) then Next(l, i) else l
  {
    assert (inputs + [i])[..|inputs|] == inputs;
  }

  /** And from then on nothing is handed on until the next `ready`. */
  lemma {:induction false} NothingUntilReady(before: seq<Input>, more: seq<Input>)
    requires After(before).session.None?
    requires forall k :: 0 <= k < |more| ==> !(more[k].Frame? && IsReady(more[k].value))
    ensures After(before + more).session.None? && After(before + more).handed == After(before).handed
    decreases |more|
  {
    if more == [] {
      assert before + more == before;
    } else {
      var n := |more| - 1;
      NothingUntilReady(before, more[..n]);
      assert before + more == (before + more[..n]) + [more[n]];
      AfterOne(before + more[..n], more[n]);
      if Enabled(After(before + more[..n]), more[n]) {
        WithoutASession(After(before + more[..n]), more[n]);
      }
    }
  }

  // ------------------------------------------------------------------- the token

  /** The token is forgotten by a step exactly when the server refused it on an identify,
      or the clock did. */
  lemma TokenForgottenExactlyWhen(l: Link, i: Input)
    requires Enabled(l, i) && l.hasToken
    ensures !Next(l, i).hasToken <==>
            || (i.Check? && !i.usable)
            || (i.Frame? && IsInvalid(i.value) && !l.phase.resuming && i.value.typed.value.reason == "unauthenticated")
  {
  }

  /** A token comes from the frontend alone. */
  lemma TokenComesExactlyWhen(l: Link, i: Input)
    requires Enabled(l, i) && !l.hasToken
    ensures Next(l, i).hasToken <==> i.Take? && l.queue[0].Token?
  {
  }

  ghost predicate TokenFits(l: Link) { (l.phase.Dialing? ==> l.hasToken) && (l.phase.NeedingToken? ==> !l.hasToken) }

  lemma StepFits(l: Link, i: Input)
    requires Enabled(l, i) && TokenFits(l)
    ensures TokenFits(Next(l, i))
  {
  }

  /** Over any run, a dial is made only with a token, and one is waited for only without. */
  lemma {:induction false} DialsWithAToken(inputs: seq<Input>)
    ensures TokenFits(After(inputs))
  {
    if inputs != [] {
      var before := inputs[..|inputs| - 1];
      DialsWithAToken(before);
      if Enabled(After(before), inputs[|inputs| - 1]) {
        StepFits(After(before), inputs[|inputs| - 1]);
      }
    }
  }

  /** The loop ends exactly on a shutdown taken or a handle dropped. */
  lemma EndsExactlyWhen(l: Link, i: Input)
    requires Enabled(l, i)
    ensures Next(l, i).phase.Over? <==> i.HandleGone? || (i.Take? && l.queue[0].Stop?)
  {
    if i.Take? {
      TakeEnds(l, i.writes);
    } else if i.Frame? {
      FrameGoesOn(l, i.value, i.writes);
    }
  }

  lemma TakeEnds(l: Link, writes: bool)
    requires Enabled(l, Take(writes))
    ensures Next(l, Take(writes)).phase.Over? <==> l.queue[0].Stop?
  {
  }

  lemma FrameGoesOn(l: Link, value: Value, writes: bool)
    requires l.phase.Open?
    ensures !OnFrame(l, value, writes).phase.Over?
  {
  }

  // ----------------------------------------------------------------- the backoff

  /** A try that came to nothing: a dial, a greeting, a connection or a write. */
  predicate Fails(l: Link, i: Input)
    requires Enabled(l, i)
  {
    match i
    case Dial(answers) => !answers
    case Greet(hello, writes) => !hello || !writes
    case Frame(value, writes) =>
      (IsInvalid(value) && !l.phase.resuming) || ((IsReady(value) || IsResumed(value)) && l.leaveVoice && !writes)
    case Beat(writes) => l.phase.outstanding >= 2 || !writes
    case Lost => true
    case Take(writes) => l.phase.Open? && !writes && (l.queue[0].Send? || (l.queue[0].LeaveVoice? && l.phase.live))
    case _ => false
  }

  /** The server took the session, or somebody asked to try again now. */
  predicate Resets(l: Link, i: Input)
    requires Enabled(l, i)
  {
    (i.Frame? && (IsReady(i.value) || IsResumed(i.value))) || (i.Take? && l.phase.Pausing? && l.queue[0].Retry?)
  }

  /** How many tries failed since, as far as a 32-bit count goes. */
  function Tries(inputs: seq<Input>): nat {
    if inputs == [] then 0
    else
      var (l, i, n) := (After(inputs[..|inputs| - 1]), inputs[|inputs| - 1], Tries(inputs[..|inputs| - 1]));
      if !Enabled(l, i) then n
      else
        var base := if Resets(l, i) then 0 else n;
        if Fails(l, i) && base < 0xFFFF_FFFF then base + 1 else base
  }

  /** One failure counts, and waits unless it is the first. */
  ghost predicate CountsOne(l: Link, r: Link) {
    && r.attempt as int == (if l.attempt == 0xFFFF_FFFF then 0xFFFF_FFFF else l.attempt as int + 1)
    && r.phase == if l.attempt == 0 then Checking else Pausing
  }

  lemma DroppedCounts(l: Link)
    ensures CountsOne(l, End(l, Dropped))
  {
  }

  lemma FrameCounts(l: Link, value: Value, writes: bool)
    requires l.phase.Open?
    ensures var (r, i) := (OnFrame(l, value, writes), Frame(value, writes));
            var base := if IsReady(value) || IsResumed(value) then l.(attempt := 0) else l;
            if Fails(l, i) then CountsOne(base, r) else r.attempt == base.attempt
  {
    AnswersExactly(l.session, value, l.phase.resuming);
  }

  lemma OtherCounts(l: Link, i: Input)
    requires Enabled(l, i) && !i.Frame?
    ensures var base := if Resets(l, i) then l.(attempt := 0) else l;
            if Fails(l, i) then CountsOne(base, Next(l, i)) else Next(l, i).attempt == base.attempt
  {
    DroppedCounts(l);
  }

  /** A step that fails counts one more and waits, unless it is the first since a reset;
      any other step leaves the count, or starts it over. */
  lemma StepTries(l: Link, i: Input)
    requires Enabled(l, i)
    ensures var base := if Resets(l, i) then l.(attempt := 0) else l;
            if Fails(l, i) then CountsOne(base, Next(l, i)) else Next(l, i).attempt == base.attempt
  {
    if i.Frame? {
      FrameCounts(l, i.value, i.writes);
    } else {
      OtherCounts(l, i);
    }
  }

  /** Over any run, `attempt`, which the delay doubles with, counts the failures since the
      last `ready`, `resumed` or honoured retry. */
  lemma {:induction false} AttemptCountsFailures(inputs: seq<Input>)
    ensures After(inputs).attempt as int == Tries(inputs)
  {
    if inputs != [] {
      var before := inputs[..|inputs| - 1];
      AttemptCountsFailures(before);
      if Enabled(After(before), inputs[|inputs| - 1]) {
        StepTries(After(before), inputs[|inputs| - 1]);
      }
    }
  }

  // ------------------------------------------------------------------ the socket

  /** What the inputs since its greeting say of the open socket: whether it resumes, whether
      the server has taken it for the session, and how many heartbeats since are unanswered. */
  function SocketSays(inputs: seq<Input>): Phase {
    if inputs == [] then Checking
    else
      var (l, i, was) := (After(inputs[..|inputs| - 1]), inputs[|inputs| - 1], SocketSays(inputs[..|inputs| - 1]));
      if !Enabled(l, i) then was
      else if i.Greet? then Open(l.session.Some?, false, 0)
      else if !was.Open? then was
      else if i.Frame? && (IsReady(i.value) || IsResumed(i.value)) then was.(live := true)
      else if i.Frame? && i.value.typed == Some(HeartbeatAck) then was.(outstanding := 0)
      else if i.Beat? then was.(outstanding := was.outstanding + 1)
      else was
  }

  lemma FrameSocket(l: Link, value: Value, writes: bool)
    requires l.phase.Open? && OnFrame(l, value, writes).phase.Open?
    ensures OnFrame(l, value, writes).phase ==
            if IsReady(value) || IsResumed(value) then l.phase.(live := true)
            else if value.typed == Some(HeartbeatAck) then l.phase.(outstanding := 0)
            else l.phase
  {
    AnswersExactly(l.session, value, l.phase.resuming);
  }

  lemma StepSocket(l: Link, i: Input)
    requires Enabled(l, i) && Next(l, i).phase.Open? && !i.Frame?
    ensures i.Greet? ==> Next(l, i).phase == Open(l.session.Some?, false, 0)
    ensures !i.Greet? ==>
              && l.phase.Open?
              && Next(l, i).phase == if i.Beat? then l.phase.(outstanding := l.phase.outstanding + 1) else l.phase
    ensures i.Beat? ==> l.phase.outstanding < 2
  {
  }

  /** Over any run, an open socket is what its inputs say; in particular it is live only
      since a `ready` or `resumed` on it, and never has more than two heartbeats unanswered. */
  lemma {:induction false} SocketIsAsTold(inputs: seq<Input>)
    ensures After(inputs).phase.Open? ==> After(inputs).phase == SocketSays(inputs) && SocketSays(inputs).outstanding <= 2
  {
    if inputs != [] {
      var before, i := inputs[..|inputs| - 1], inputs[|inputs| - 1];
      SocketIsAsTold(before);
      var l := After(before);
      if Enabled(l, i) && Next(l, i).phase.Open? {
        if i.Frame? {
          FrameSocket(l, i.value, i.writes);
        } else {
          StepSocket(l, i);
        }
      }
    }
  }

  // ------------------------------------------------------------------- the queue

  /** How many commands were taken. */
  function TakenCount(inputs: seq<Input>): nat {
    if inputs == [] then 0
    else
      var n := TakenCount(inputs[..|inputs| - 1]);
      if inputs[|inputs| - 1].Take? && Enabled(After(inputs[..|inputs| - 1]), inputs[|inputs| - 1]) then n + 1 else n
  }

  /** The commands the queue took: those posted to a loop still running with fewer than 32
      waiting. */
  function Posted(inputs: seq<Input>): seq<Cmd> {
    if inputs == [] then []
    else
      var before, i := inputs[..|inputs| - 1], inputs[|inputs| - 1];
      if i.Post? && Enabled(After(before), i) && |Posted(before)| < TakenCount(before) + 32 then Posted(before) + [i.cmd]
      else Posted(before)
  }

  lemma QueueSteps(l: Link, i: Input)
    requires Enabled(l, i)
    ensures Next(l, i).queue ==
            if i.Post? && |l.queue| < 32 then l.queue + [i.cmd]
            else if i.Take? then l.queue[1..]
            else l.queue
  {
  }

  /** Over any run, commands are taken in the order they were posted, and what waits is
      the rest. */
  lemma {:induction false} TakenInOrder(inputs: seq<Input>)
    ensures TakenCount(inputs) <= |Posted(inputs)| <= TakenCount(inputs) + 32
    ensures After(inputs).queue == Posted(inputs)[TakenCount(inputs)..]
  {
    if inputs != [] {
      var before := inputs[..|inputs| - 1];
      TakenInOrder(before);
      if Enabled(After(before), inputs[|inputs| - 1]) {
        QueueSteps(After(before), inputs[|inputs| - 1]);
      }
    }
  }
}
