/**
 The gateway client's connection loop (client/src-tauri/src/gateway.rs).

 `Next` is one thing happening to a running client: a socket event, a frame, a
 heartbeat falling due, a queued command taken, a wait running out. `apply` and
 the pauses follow the source; what the network, the clock and the frontend do is in the input.
 */
module Gateway {
  import opened Common
  import opened Frames

  const MISSED_ACKS: nat := 2
  const QUEUE: nat := 32

  /** A server session the client may still resume into. */
  datatype Session = Session(id: string, lastSeq: Option<u64>, replayThrough: Option<u64>)

  datatype Outcome = Dropped | Restart(immediate: bool) | Reauth | Shutdown

  datatype Step = Idle | Live(resumed: bool) | Out(outcome: Outcome)

  /** A frame handed to the frontend, and whether it was marked a replay. */
  datatype Handed = Handed(frame: ServerFrame, replayed: bool)

  /** One sequence number counted: the `ready` that began a session, or a later
      frame, handed on unless its op is unknown. */
  datatype Count = Began(id: string, s: u64) | Counted(s: u64, known: bool)

  datatype Applied = Applied(session: Option<Session>, step: Step, handed: seq<Handed>, counted: seq<Count>)

  function SaturatingAdd(a: u64, b: u64): u64 {
    if a as int + b as int > 0xFFFF_FFFF_FFFF_FFFF then 0xFFFF_FFFF_FFFF_FFFF else a + b
  }

  /** What one frame does to the session, to the connection and to what is handed on. */
  function Apply(session: Option<Session>, value: Value, resuming: bool): Applied {
    match value.typed
    case Some(HeartbeatAck) => Applied(session, Idle, [], [])
    case Some(InvalidSession(reason)) =>
      var outcome := if resuming then Restart(true) else if reason == "unauthenticated" then Reauth else Restart(false);
      Applied(session, Out(outcome), [], [])
    case Some(Resumed(replayed)) =>
      var through := (open: Session) =>
        if open.lastSeq.Some? then Some(SaturatingAdd(open.lastSeq.value, replayed)) else None;
      var marked := if session.Some? then Some(session.value.(replayThrough := through(session.value))) else None;
      Applied(marked, Live(true), [], [])
    case Some(Hello) => Applied(session, Idle, [], [])
    case Some(Ready(id)) =>
      if value.s.None? then Applied(session, Idle, [], [])
      else
        Applied(Some(Session(id, value.s, None)), Live(false),
                [Handed(ServerFrame(Ready(id), value.s), false)], [Began(id, value.s.value)])
    case _ =>
      if value.s.None? || session.None? then Applied(session, Idle, [], [])
      else Sequenced(session.value, value.s.value, value.typed)
  }

  /** Count a sequenced frame of an open session: once, in order, without a hole. */
  function Sequenced(open: Session, seq_: u64, typed: Option<Event>): Applied {
    if open.lastSeq.Some? && seq_ <= open.lastSeq.value then Applied(Some(open), Idle, [], [])
    else if open.lastSeq.Some? && seq_ > open.lastSeq.value + 1 then Applied(Some(open), Out(Restart(true)), [], [])
    else
      var replayed := open.replayThrough.Some? && seq_ <= open.replayThrough.value;
      Applied(Some(open.(lastSeq := Some(seq_))), Idle,
              if typed.Some? then [Handed(ServerFrame(typed.value, Some(seq_)), replayed)] else [],
              [Counted(seq_, typed.Some?)])
  }

  // ------------------------------------------------------------------ backoff

  function Power2(n: nat): (p: nat)
    ensures p > 0
  {
    if n == 0 then 1 else 2 * Power2(n - 1)
  }

  /** The longest delay, in milliseconds, before attempt `attempt`. */
  function BackoffBase(attempt: u32): (base: real)
    requires attempt > 0
    ensures base > 0.0
  {
    var doublings := if attempt - 1 < 16 then attempt - 1 else 16;
    var doubled := 500.0 * Power2(doublings as nat) as real;
    if doubled < 30000.0 then doubled else 30000.0
  }

  /** The delay, in milliseconds, before another try; `attempt` counts from 0. */
  function BackoffDelay(attempt: u32, fraction: real): real {
    if attempt == 0 then 0.0 else Jittered(BackoffBase(attempt), fraction)
  }

  /** Half of `base`, and up to as much again by chance. */
  function Jittered(base: real, fraction: real): (delay: real)
    requires base > 0.0
    ensures base / 2.0 <= delay <= base && delay > 0.0
  {
    var clamped := if fraction < 0.0 then 0.0 else if fraction > 1.0 then 1.0 else fraction;
    Between(base, 0.5 + 0.5 * clamped);
    base * (0.5 + 0.5 * clamped)
  }

  lemma Between(base: real, part: real)
    requires base > 0.0 && 0.5 <= part <= 1.0
    ensures base / 2.0 <= base * part <= base
    ensures base * part > 0.0
  {
    assert base * (part - 0.5) >= 0.0 && base * (1.0 - part) >= 0.0;
    assert base * (part - 0.5) == base * part - base / 2.0;
    assert base * (1.0 - part) == base - base * part;
  }

  // ----------------------------------------------------------------- the loop

  /** What the frontend asks for. A `voice.leave` carries a ticket, to follow it by. */
  datatype Cmd = Token | Send | LeaveVoice(ticket: nat) | Retry | Stop

  datatype Phase =
    | Checking                       // the top of the loop: is the token usable?
    | NeedingToken
    | Dialing
    | Greeting                       // the socket is up; `hello` comes first
    | Open(resuming: bool, live: bool, outstanding: nat)
    | Pausing
    | Over

  /** What a run has seen: sessions begun, sessions resumed, retries honoured,
      and redials made without waiting out a delay. */
  datatype Tally = Tally(readies: nat, resumes: nat, retries: nat, quick: nat)

  datatype Link = Link(
    phase: Phase,
    hasToken: bool,
    session: Option<Session>,
    attempt: u32,
    leaveVoice: bool,
    queue: seq<Cmd>,
    handed: seq<Handed>,
    counted: seq<Count>,
    tally: Tally,
    accepted: set<nat>,   // leave tickets the queue took
    latched: set<nat>,    // taken from the queue, not yet written
    written: set<nat>)

  function Fresh(): Link {
    Link(Checking, true, None, 0, false, [], [], [], Tally(0, 0, 0, 0), {}, {}, {})
  }

  /** Wait before the next try, unless the delay is zero: exactly at attempt 0. */
  function Pause(l: Link): Link {
    var next: u32 := if l.attempt == 0xFFFF_FFFF then l.attempt else l.attempt + 1;
    if l.attempt == 0
    then l.(attempt := next, phase := Checking, tally := l.tally.(quick := l.tally.quick + 1))
    else l.(attempt := next, phase := Pausing)
  }

  /** How `run` goes on after one connection. */
  function End(l: Link, outcome: Outcome): Link {
    match outcome
    case Shutdown => l.(phase := Over)
    case Dropped => Pause(l)
    case Restart(immediate) =>
      if immediate
      then l.(session := None, phase := Checking, tally := l.tally.(quick := l.tally.quick + 1))
      else Pause(l.(session := None))
    case Reauth => Pause(l.(hasToken := false))
  }

  /** Write the latched leave, if there is one: the latch clears only on success. */
  function WriteLeave(l: Link, writes: bool): Link {
    if !l.leaveVoice then l
    else if !writes then End(l, Dropped)
    else l.(leaveVoice := false, written := l.written + l.latched, latched := {})
  }

  function OnFrame(l: Link, value: Value, writes: bool): Link
    requires l.phase.Open?
  {
    var applied := Apply(l.session, value, l.phase.resuming);
    var folded := l.(session := applied.session, handed := l.handed + applied.handed, counted := l.counted + applied.counted);
    match applied.step
    case Idle => if value.typed == Some(HeartbeatAck) then folded.(phase := l.phase.(outstanding := 0)) else folded
    case Live(resumed) =>
      var tally := if resumed then l.tally.(resumes := l.tally.resumes + 1) else l.tally.(readies := l.tally.readies + 1);
      WriteLeave(folded.(attempt := 0, phase := l.phase.(live := true), tally := tally), writes)
    case Out(outcome) => End(folded, outcome)
  }

  /** A heartbeat falls due. */
  function OnBeat(l: Link, writes: bool): Link
    requires l.phase.Open?
  {
    if l.phase.outstanding >= MISSED_ACKS || !writes then End(l, Dropped)
    else l.(phase := l.phase.(outstanding := l.phase.outstanding + 1))
  }

  /** A command taken from the queue while a socket is open. */
  function OnCommand(l: Link, cmd: Cmd, writes: bool): Link
    requires l.phase.Open?
  {
    match cmd
    case Stop => End(l, Shutdown)
    case Token => l.(hasToken := true)
    case Send => if writes then l else End(l, Dropped)
    case LeaveVoice(ticket) =>
      var latched := l.(leaveVoice := true, latched := l.latched + {ticket});
      if l.phase.live then WriteLeave(latched, writes) else latched
    case Retry => l
  }

  /** A command taken while waiting: between tries, or for a token. */
  function OnWait(l: Link, cmd: Cmd): Link
    requires l.phase.Pausing? || l.phase.NeedingToken?
  {
    match cmd
    case Stop => l.(phase := Over)
    case Token => if l.phase.NeedingToken? then l.(hasToken := true, phase := Checking) else l.(hasToken := true)
    case Send => l
    case LeaveVoice(ticket) => l.(leaveVoice := true, latched := l.latched + {ticket})
    case Retry =>
      if l.phase.NeedingToken? then l
      else
        l.(attempt := 0, phase := Checking,
           tally := l.tally.(retries := l.tally.retries + 1, quick := l.tally.quick + 1))
  }

  // ------------------------------------------------------------------ the runs

  datatype Input =
    | Post(cmd: Cmd)                             // the frontend's handle
    | Check(usable: bool)                        // the clock, against the token's expiry
    | WaitEnds
    | Dial(answers: bool)
    | Greet(hello: bool, writes: bool)
    | Frame(value: Value, writes: bool)
    | Beat(writes: bool)
    | Take(writes: bool)             // a queued command
    | Lost
    | HandleGone

  predicate Enabled(l: Link, i: Input) {
    match i
    case Post(_) => !l.phase.Over?
    case Check(_) => l.phase.Checking?
    case WaitEnds => l.phase.Pausing? || l.phase.NeedingToken?
    case Dial(_) => l.phase.Dialing?
    case Greet(_, _) => l.phase.Greeting?
    case Frame(_, _) => l.phase.Open?
    case Beat(_) => l.phase.Open?
    case Take(_) => l.queue != [] && (l.phase.Open? || l.phase.Pausing? || l.phase.NeedingToken?)
    case Lost => l.phase.Open?
    case HandleGone => l.queue == [] && (l.phase.Open? || l.phase.Pausing? || l.phase.NeedingToken?)
  }

  function Next(l: Link, i: Input): Link
    requires Enabled(l, i)
  {
    match i
    case Post(cmd) =>
      if |l.queue| >= QUEUE then l
      else l.(queue := l.queue + [cmd], accepted := l.accepted + (if cmd.LeaveVoice? then {cmd.ticket} else {}))
    case Check(usable) =>
      if l.hasToken && usable then l.(phase := Dialing) else l.(hasToken := false, phase := NeedingToken)
    case WaitEnds => l.(phase := Checking)
    case Dial(answers) => if answers then l.(phase := Greeting) else Pause(l)
    case Greet(hello, writes) =>
      if hello && writes then l.(phase := Open(l.session.Some?, false, 0)) else End(l, Dropped)
    case Frame(value, writes) => OnFrame(l, value, writes)
    case Beat(writes) => OnBeat(l, writes)
    case Take(writes) =>
      var taken := l.(queue := l.queue[1..]);
      if l.phase.Open? then OnCommand(taken, l.queue[0], writes) else OnWait(taken, l.queue[0])
    case Lost => End(l, Dropped)
    case HandleGone => l.(phase := Over)
  }

  /** The client after a run of inputs. An input that isn't enabled is no step. */
  function After(inputs: seq<Input>): Link {
    if inputs == [] then Fresh()
    else
      var before := After(inputs[..|inputs| - 1]);
      var i := inputs[|inputs| - 1];
      if Enabled(before, i) then Next(before, i) else before
  }
}
