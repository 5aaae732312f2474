/**
 `Runner` itself: the object that owns one connection and updates its fields as
 the loop goes round. Its ghost `trace` is the run of `Gateway` it has been through:
 there is one method for each input, and each adds that input, so what is proved of
 all runs holds of the object, as `Guarantees` says.
 */
module GatewayRunner {
  import opened Common
  import opened Frames
  import opened Gateway
  import opened GatewayRuns

  /** How a socket is opened: afresh, or from where the session stopped. */
  datatype Opener = Identify | Resume(id: string, s: u64)

  /** An enabled input takes a run one step further. */
  lemma OneMore(trace: seq<Input>, i: Input)
    requires Enabled(After(trace), i)
    ensures After(trace + [i]) == Next(After(trace), i)
  {
    assert (trace + [i])[..|trace|] == trace;
  }

  lemma {:induction false} HandedIsNumbered(counted: seq<Count>, handed: seq<Handed>)
    requires HandedOn(counted, handed)
    ensures forall k :: 0 <= k < |handed| ==> handed[k].frame.s.Some?
    decreases |counted|
  {
    if counted != [] {
      var n, m := |counted| - 1, |handed| - 1;
      if counted[n].Counted? && !counted[n].known {
        HandedIsNumbered(counted[..n], handed);
      } else {
        HandedIsNumbered(counted[..n], handed[..m]);
        assert forall k :: 0 <= k < m ==> handed[k] == handed[..m][k];
      }
    }
  }

  class Runner {
    var phase: Phase
    var hasToken: bool
    var session: Option<Session>
    var attempt: u32
    var leaveVoice: bool
    var queue: seq<Cmd>
    var handed: seq<Handed>
    ghost var counted: seq<Count>
    ghost var tally: Tally
    ghost var accepted: set<nat>
    ghost var latched: set<nat>
    ghost var written: set<nat>
    ghost var trace: seq<Input>

    ghost function View(): Link
      reads this
    {
      Link(phase, hasToken, session, attempt, leaveVoice, queue, handed, counted, tally, accepted, latched, written)
    }

    ghost predicate Valid()
      reads this
    {
      View() == After(trace)
    }

    /** Whatever the server and the frontend did so far: an open session has a last
        number, what was handed on is numbered and contiguous, quick redials are
        bounded, and every leave taken is queued, latched or written. */
    lemma Guarantees()
      requires Valid()
      ensures session.Some? ==> session.value.lastSeq.Some?
      ensures forall k :: 0 <= k < |handed| ==> handed[k].frame.s.Some?
      ensures Contiguous(counted) && HandedOn(counted, handed)
      ensures tally.quick <= 1 + 2 * tally.readies + tally.resumes + 2 * tally.retries
      ensures accepted == Tickets(queue) + latched + written && (leaveVoice <==> latched != {})
    {
      EveryRunAccounts(trace);
      QuickRedialsBounded(trace);
      LeavesAreKept(trace);
      HandedIsNumbered(counted, handed);
    }

    constructor ()
      ensures Valid() && trace == []
    {
      trace := [];
      phase, hasToken, session, attempt, leaveVoice := Checking, true, None, 0, false;
      queue, handed, counted, tally := [], [], [], Tally(0, 0, 0, 0);
      accepted, latched, written := {}, {}, {};
    }

    /** `Handle`'s `try_send`: a full queue answers false. */
    method Post(cmd: Cmd) returns (taken: bool)
      requires Valid() && phase != Over
      modifies this`queue, this`accepted, this`trace
      ensures Valid() && trace == old(trace) + [Input.Post(cmd)]
      ensures taken == (|old(queue)| < QUEUE)
    {
      OneMore(trace, Input.Post(cmd));
      trace := trace + [Input.Post(cmd)];
      taken := |queue| < QUEUE;
      if taken {
        queue := queue + [cmd];
        if cmd.LeaveVoice? {
          accepted := accepted + {cmd.ticket};
        }
      }
    }

    /** `apply`, on the object's own fields. */
    method ApplyFrame(value: Value, resuming: bool) returns (step: Step)
      modifies this`session, this`handed, this`counted
      ensures var a := Apply(old(session), value, resuming);
              && session == a.session && step == a.step
              && handed == old(handed) + a.handed && counted == old(counted) + a.counted
    {
      match value.typed {
        case Some(HeartbeatAck) => return Idle;
        case Some(InvalidSession(reason)) =>
          if resuming {
            return Out(Restart(true));
          } else if reason == "unauthenticated" {
            return Out(Reauth);
          } else {
            return Out(Restart(false));
          }
        case Some(Resumed(replayed)) =>
          if session.Some? {
            var open := session.value;
            var through := None;
            if open.lastSeq.Some? {
              through := Some(SaturatingAdd(open.lastSeq.value, replayed));
            }
            session := Some(open.(replayThrough := through));
          }
          return Live(true);
        case Some(Hello) => return Idle;
        case Some(Ready(id)) =>
          if value.s.None? {
            return Idle;
          }
          session := Some(Session(id, value.s, None));
          handed := handed + [Handed(ServerFrame(Ready(id), value.s), false)];
          counted := counted + [Began(id, value.s.value)];
          return Live(false);
        case _ =>
          if value.s.None? || session.None? {
            return Idle;
          }
          step := CountFrame(value.s.value, value.typed);
      }
    }

    method CountFrame(number: u64, typed: Option<Event>) returns (step: Step)
      requires session.Some?
      modifies this`session, this`handed, this`counted
      ensures var a := Sequenced(old(session).value, number, typed);
              && session == a.session && step == a.step
              && handed == old(handed) + a.handed && counted == old(counted) + a.counted
    {
      var open := session.value;
      if open.lastSeq.Some? {
        var previous := open.lastSeq.value;
        if number <= previous {
          return Idle;
        }
        if number > previous + 1 {
          return Out(Restart(true));
        }
      }
      session := Some(open.(lastSeq := Some(number)));
      counted := counted + [Counted(number, typed.Some?)];
      if typed.Some? {
        var replayed := open.replayThrough.Some? && number <= open.replayThrough.value;
        handed := handed + [Handed(ServerFrame(typed.value, Some(number)), replayed)];
      }
      return Idle;
    }

    /** Wait out the delay for this attempt, unless there is none. */
    method Pause(fraction: real) returns (delay: real)
      modifies this`attempt, this`phase, this`tally
      ensures View() == Gateway.Pause(old(View()))
      ensures delay == BackoffDelay(old(attempt), fraction)
      ensures phase == Pausing <==> delay > 0.0
    {
      DelayInBounds(attempt, fraction);
      delay := BackoffDelay(attempt, fraction);
      if attempt > 0 {
        BaseDoubles(attempt);
      }
      attempt := if attempt == 0xFFFF_FFFF then attempt else attempt + 1;
      if delay == 0.0 {
        phase := Checking;
        tally := tally.(quick := tally.quick + 1);
      } else {
        phase := Pausing;
      }
    }

    /** What `run` does with the way a connection ended. */
    method EndConnection(outcome: Outcome, fraction: real)
      modifies this`phase, this`session, this`hasToken, this`attempt, this`tally
      ensures View() == End(old(View()), outcome)
    {
      match outcome {
        case Shutdown => phase := Over;
        case Dropped => var _ := Pause(fraction);
        case Restart(immediate) =>
          session := None;
          if immediate {
            phase := Checking;
            tally := tally.(quick := tally.quick + 1);
          } else {
            var _ := Pause(fraction);
          }
        case Reauth =>
          hasToken := false;
          var _ := Pause(fraction);
      }
    }

    /** Send the latched leave over a live socket. */
    method SendLeave(writes: bool, fraction: real)
      modifies this`phase, this`session, this`hasToken, this`attempt, this`tally, this`leaveVoice, this`latched, this`written
      ensures View() == WriteLeave(old(View()), writes)
    {
      if leaveVoice {
        if !writes {
          EndConnection(Dropped, fraction);
          return;
        }
        leaveVoice := false;
        written, latched := written + latched, {};
      }
    }

    /** The top of the loop: dial with a token that is still good, or ask for one. */
    method TokenChecked(usable: bool)
      requires Valid() && phase.Checking?
      modifies this`phase, this`hasToken, this`trace
      ensures Valid() && trace == old(trace) + [Check(usable)]
    {
      OneMore(trace, Check(usable));
      trace := trace + [Check(usable)];
      if hasToken && usable {
        phase := Dialing;
      } else {
        hasToken := false;
        phase := NeedingToken;
      }
    }

    /** A wait ran out: for a token, or between tries. */
    method WaitOver()
      requires Valid() && (phase.Pausing? || phase.NeedingToken?)
      modifies this`phase, this`trace
      ensures Valid() && trace == old(trace) + [WaitEnds]
    {
      OneMore(trace, WaitEnds);
      trace := trace + [WaitEnds];
      phase := Checking;
    }

    /** The dial was answered, or failed or timed out. */
    method Dialed(answers: bool, fraction: real)
      requires Valid() && phase.Dialing?
      modifies this`phase, this`attempt, this`tally, this`trace
      ensures Valid() && trace == old(trace) + [Dial(answers)]
    {
      OneMore(trace, Dial(answers));
      trace := trace + [Dial(answers)];
      if answers {
        phase := Greeting;
      } else {
        var _ := Pause(fraction);
      }
    }

    /** `hello` came or did not, and the opener was written or not: a `resume` if there
        is a session to go on with. */
    method Greeted(hello: bool, writes: bool, fraction: real) returns (opener: Opener)
      requires Valid() && phase.Greeting?
      modifies this`phase, this`session, this`hasToken, this`attempt, this`tally, this`trace
      ensures Valid() && trace == old(trace) + [Greet(hello, writes)]
      ensures opener.Identify? <==> old(session).None?
      ensures opener.Resume? ==> opener.id == old(session).value.id && Some(opener.s) == old(session).value.lastSeq
    {
      if session.Some? {
        opener := Resume(session.value.id, if session.value.lastSeq.Some? then session.value.lastSeq.value else 0);
      } else {
        opener := Identify;
      }
      Guarantees();
      OneMore(trace, Greet(hello, writes));
      trace := trace + [Greet(hello, writes)];
      if hello && writes {
        phase := Open(session.Some?, false, 0);
      } else {
        EndConnection(Dropped, fraction);
      }
    }

    method ConnectionLost(fraction: real)
      requires Valid() && phase.Open?
      modifies this
      ensures Valid() && trace == old(trace) + [Lost]
    {
      OneMore(trace, Lost);
      trace := trace + [Lost];
      EndConnection(Dropped, fraction);
    }

    /** The command channel closed: the same instruction as a shutdown. */
    method HandleDropped()
      requires Valid() && queue == [] && (phase.Open? || phase.Pausing? || phase.NeedingToken?)
      modifies this`phase, this`trace
      ensures Valid() && trace == old(trace) + [HandleGone]
    {
      OneMore(trace, HandleGone);
      trace := trace + [HandleGone];
      phase := Over;
    }

    /** The handshake landed: start the backoff over, and send a leave that was waiting. */
    method WentLive(resumed: bool, writes: bool, fraction: real)
      requires phase.Open?
      modifies this`phase, this`session, this`hasToken, this`attempt, this`tally, this`leaveVoice, this`latched, this`written
      ensures var l := old(View());
              var tally := if resumed then l.tally.(resumes := l.tally.resumes + 1) else l.tally.(readies := l.tally.readies + 1);
              View() == WriteLeave(l.(attempt := 0, phase := l.phase.(live := true), tally := tally), writes)
    {
      attempt := 0;
      phase := phase.(live := true);
      tally := if resumed then tally.(resumes := tally.resumes + 1) else tally.(readies := tally.readies + 1);
      SendLeave(writes, fraction);
    }

    method TakeFrame(value: Value, writes: bool, fraction: real)
      requires phase.Open?
      modifies this
      ensures View() == OnFrame(old(View()), value, writes) && trace == old(trace)
    {
      var step := ApplyFrame(value, phase.resuming);
      match step {
        case Idle =>
          if value.typed == Some(HeartbeatAck) {
            phase := phase.(outstanding := 0);
          }
        case Live(resumed) => WentLive(resumed, writes, fraction);
        case Out(outcome) => EndConnection(outcome, fraction);
      }
    }

    /** The `incoming` branch of the session loop. */
    method Incoming(value: Value, writes: bool, fraction: real)
      requires Valid() && phase.Open?
      modifies this
      ensures Valid() && trace == old(trace) + [Frame(value, writes)]
    {
      OneMore(trace, Frame(value, writes));
      TakeFrame(value, writes, fraction);
      trace := trace + [Frame(value, writes)];
    }

    /** The heartbeat branch. */
    method BeatDue(writes: bool, fraction: real) returns (last: Option<u64>)
      requires Valid() && phase.Open?
      modifies this
      ensures Valid() && trace == old(trace) + [Beat(writes)]
      ensures old(session).Some? ==> last.Some? && last == old(session).value.lastSeq
      ensures old(session).None? ==> last.None?
    {
      Guarantees();
      last := if session.Some? then session.value.lastSeq else None;
      OneMore(trace, Beat(writes));
      trace := trace + [Beat(writes)];
      if phase.outstanding >= MISSED_ACKS {
        EndConnection(Dropped, fraction);
      } else if !writes {
        EndConnection(Dropped, fraction);
      } else {
        phase := phase.(outstanding := phase.outstanding + 1);
      }
    }

    method TakeCommand(cmd: Cmd, writes: bool, fraction: real)
      requires phase.Open?
      modifies this
      ensures View() == OnCommand(old(View()), cmd, writes) && trace == old(trace)
    {
      match cmd {
        case Stop => EndConnection(Shutdown, fraction);
        case Token => hasToken := true;
        case Send =>
          if !writes {
            EndConnection(Dropped, fraction);
          }
        case LeaveVoice(ticket) =>
          leaveVoice := true;
          latched := latched + {ticket};
          if phase.live {
            SendLeave(writes, fraction);
          }
        case Retry =>
      }
    }

    /** The command branch, with a socket open. */
    method Command(writes: bool, fraction: real)
      requires Valid() && phase.Open? && queue != []
      modifies this
      ensures Valid() && trace == old(trace) + [Take(writes)]
    {
      OneMore(trace, Take(writes));
      var cmd := queue[0];
      queue := queue[1..];
      TakeCommand(cmd, writes, fraction);
      trace := trace + [Take(writes)];
    }

    method TakeWaiting(cmd: Cmd)
      requires phase.Pausing? || phase.NeedingToken?
      modifies this`phase, this`hasToken, this`leaveVoice, this`latched, this`attempt, this`tally
      ensures View() == OnWait(old(View()), cmd)
    {
      match cmd {
        case Stop => phase := Over;
        case Token =>
          hasToken := true;
          if phase.NeedingToken? {
            phase := Checking;
          }
        case Send =>
        case LeaveVoice(ticket) =>
          leaveVoice := true;
          latched := latched + {ticket};
        case Retry =>
          if !phase.NeedingToken? {
            attempt := 0;
            phase := Checking;
            tally := tally.(retries := tally.retries + 1, quick := tally.quick + 1);
          }
      }
    }

    /** A command served while waiting, for a token or between tries. */
    method CommandWaiting()
      requires Valid() && (phase.Pausing? || phase.NeedingToken?) && queue != []
      modifies this
      ensures Valid() && trace == old(trace) + [Take(true)]
    {
      OneMore(trace, Take(true));
      var cmd := queue[0];
      queue := queue[1..];
      TakeWaiting(cmd);
      trace := trace + [Take(true)];
    }
  }
}
