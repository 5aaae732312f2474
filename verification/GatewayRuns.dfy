/** What holds of every run of the gateway client, whatever the server sends. */
module GatewayRuns {
  import opened Common
  import opened Frames
  import opened Gateway

  // ------------------------------------------------------ sequence accounting

  /** The numbers counted: a `ready` begins each session, and every later number
      is one more than the one before it. */
  ghost predicate Contiguous(counted: seq<Count>) {
    && (counted != [] ==> counted[0].Began?)
    && forall k {:trigger counted[k]} :: 0 < k < |counted| && counted[k].Counted? ==>
         counted[k].s as int == counted[k - 1].s as int + 1
  }

  predicate Carries(handed: Handed, count: Count) {
    && handed.frame.s == Some(count.s)
    && match count
       case Began(id, _) => handed.frame.event == Ready(id) && !handed.replayed
       case Counted(_, known) => known && !handed.frame.event.Ready?
  }

  /** What was handed on is what was counted, in order, less the unknown ops. */
  ghost predicate HandedOn(counted: seq<Count>, handed: seq<Handed>) {
    if counted == [] then handed == []
    else
      var n, m := |counted| - 1, |handed| - 1;
      if counted[n].Counted? && !counted[n].known then HandedOn(counted[..n], handed)
      else handed != [] && Carries(handed[m], counted[n]) && HandedOn(counted[..n], handed[..m])
  }

  /** The session of the last `ready` counted. */
  function LastBegun(counted: seq<Count>): Option<string> {
    if counted == [] then None
    else if counted[|counted| - 1].Began? then Some(counted[|counted| - 1].id)
    else LastBegun(counted[..|counted| - 1])
  }

  ghost predicate Books(session: Option<Session>, counted: seq<Count>, handed: seq<Handed>) {
    && Contiguous(counted)
    && HandedOn(counted, handed)
    && (session.Some? ==>
          && counted != []
          && session.value.lastSeq == Some(counted[|counted| - 1].s)
          && LastBegun(counted) == Some(session.value.id))
  }

  lemma Extended(counted: seq<Count>, handed: seq<Handed>, count: Count, more: seq<Handed>)
    requires Contiguous(counted) && HandedOn(counted, handed)
    requires count.Began? || (counted != [] && count.s as int == counted[|counted| - 1].s as int + 1)
    requires if count.Counted? && !count.known then more == [] else |more| == 1 && Carries(more[0], count)
    ensures Contiguous(counted + [count]) && HandedOn(counted + [count], handed + more)
    ensures LastBegun(counted + [count]) == if count.Began? then Some(count.id) else LastBegun(counted)
  {
    assert (counted + [count])[..|counted|] == counted;
    if more == [] {
      assert handed + more == handed;
    } else {
      assert (handed + more)[..|handed|] == handed;
    }
  }

  /** What one frame may do: count nothing and keep the place, or count one number. */
  ghost predicate Counts(session: Option<Session>, a: Applied) {
    if a.counted == [] then
      && a.handed == []
      && (a.session.Some? ==>
            session.Some? && a.session.value.id == session.value.id && a.session.value.lastSeq == session.value.lastSeq)
    else
      var count := a.counted[0];
      && a.counted == [count] && a.session.Some? && a.session.value.lastSeq == Some(count.s)
      && (if count.Began? then a.session.value.id == count.id
          else
            && session.Some? && a.session.value.id == session.value.id
            && (session.value.lastSeq.Some? ==> count.s as int == session.value.lastSeq.value as int + 1))
      && (if count.Counted? && !count.known then a.handed == [] else |a.handed| == 1 && Carries(a.handed[0], count))
  }

  lemma ApplyCounts(session: Option<Session>, value: Value, resuming: bool)
    ensures Counts(session, Apply(session, value, resuming))
  {
  }

  lemma CountsBooks(session: Option<Session>, counted: seq<Count>, handed: seq<Handed>, a: Applied)
    requires Books(session, counted, handed) && Counts(session, a)
    ensures Books(a.session, counted + a.counted, handed + a.handed)
  {
    if a.counted == [] {
      assert counted + a.counted == counted && handed + a.handed == handed;
    } else {
      Extended(counted, handed, a.counted[0], a.handed);
    }
  }

  lemma ApplyBooks(session: Option<Session>, counted: seq<Count>, handed: seq<Handed>, value: Value, resuming: bool)
    requires Books(session, counted, handed)
    ensures var a := Apply(session, value, resuming); Books(a.session, counted + a.counted, handed + a.handed)
  {
    ApplyCounts(session, value, resuming);
    CountsBooks(session, counted, handed, Apply(session, value, resuming));
  }

  ghost predicate Accounted(l: Link) { Books(l.session, l.counted, l.handed) }

  /** Only a frame touches the books, and the session is otherwise kept or dropped. */
  lemma BooksUntouched(l: Link, i: Input)
    requires Enabled(l, i) && !i.Frame?
    ensures var r := Next(l, i);
            r.counted == l.counted && r.handed == l.handed && (r.session == l.session || r.session.None?)
  {
  }

  lemma FrameBooks(l: Link, value: Value, writes: bool)
    requires l.phase.Open?
    ensures var (a, r) := (Apply(l.session, value, l.phase.resuming), OnFrame(l, value, writes));
            && r.counted == l.counted + a.counted && r.handed == l.handed + a.handed
            && (r.session == a.session || r.session.None?)
  {
  }

  lemma StepAccounts(l: Link, i: Input)
    requires Accounted(l) && Enabled(l, i)
    ensures Accounted(Next(l, i))
  {
    if i.Frame? {
      ApplyBooks(l.session, l.counted, l.handed, i.value, l.phase.resuming);
      FrameBooks(l, i.value, i.writes);
    } else {
      BooksUntouched(l, i);
    }
  }

  /** Over any number of sockets, against any server: an open session has a last
      sequence, every frame handed on carries a number, the numbers counted are
      contiguous from each `ready`, and only unknown ops are kept back. */
  lemma {:induction false} EveryRunAccounts(inputs: seq<Input>)
    ensures Accounted(After(inputs))
  {
    if inputs != [] {
      var before := inputs[..|inputs| - 1];
      EveryRunAccounts(before);
      if Enabled(After(before), inputs[|inputs| - 1]) {
        StepAccounts(After(before), inputs[|inputs| - 1]);
      }
    }
  }

  // ------------------------------------------------------------------ backoff

  lemma {:induction false} Power2Grows(n: nat)
    ensures Power2(n) >= n + 1
    ensures n >= 6 ==> Power2(n) >= 64
  {
    if n > 6 {
      Power2Grows(n - 1);
    } else if n > 0 {
      Power2Grows(n - 1);
      assert Power2(6) == 2 * Power2(5) == 4 * Power2(4) == 8 * Power2(3) == 16 * Power2(2);
    }
  }

  lemma BaseDoubles(attempt: u32)
    requires attempt > 0
    ensures var full := 500.0 * Power2((attempt - 1) as nat) as real;
            BackoffBase(attempt) == if full < 30000.0 then full else 30000.0
  {
    Power2Grows((attempt - 1) as nat);
    Power2Grows(16);
  }

  /** No delay only before the first try; every other lies between half of and
      all of min(500 * 2^(attempt-1), 30000) ms. */
  lemma DelayInBounds(attempt: u32, fraction: real)
    ensures attempt == 0 <==> BackoffDelay(attempt, fraction) == 0.0
    ensures attempt > 0 ==>
              var full := 500.0 * Power2((attempt - 1) as nat) as real;
              var base := if full < 30000.0 then full else 30000.0;
              base / 2.0 <= BackoffDelay(attempt, fraction) <= base
  {
    if attempt > 0 {
      BaseDoubles(attempt);
    }
  }

  /** The redials a run still has in hand: a session to lose, a first try to make. */
  function InHand(l: Link): nat { (if l.session.Some? then 1 else 0) + (if l.attempt == 0 then 1 else 0) }

  ghost predicate Budgeted(l: Link) {
    && l.tally.quick + InHand(l) <= 1 + 2 * l.tally.readies + l.tally.resumes + 2 * l.tally.retries
    && (l.phase.Open? && l.phase.resuming ==> l.session.Some?)
    && (l.phase.Pausing? ==> l.attempt > 0)
  }

  lemma PauseBudgets(l: Link)
    requires Budgeted(l)
    ensures Budgeted(Pause(l))
  {
  }

  lemma EndBudgets(l: Link, outcome: Outcome)
    requires Budgeted(l) && (outcome == Restart(true) ==> l.session.Some?)
    ensures Budgeted(End(l, outcome))
  {
    match outcome
    case Restart(immediate) =>
      if !immediate {
        PauseBudgets(l.(session := None, phase := Dialing));
      }
    case Reauth => PauseBudgets(l.(hasToken := false));
    case Dropped => PauseBudgets(l);
    case Shutdown =>
  }

  lemma LeaveBudgets(l: Link, writes: bool)
    requires Budgeted(l) && l.phase.Open?
    ensures Budgeted(WriteLeave(l, writes))
  {
    EndBudgets(l, Dropped);
  }

  lemma FrameBudgets(l: Link, value: Value, writes: bool)
    requires Budgeted(l) && l.phase.Open?
    ensures Budgeted(OnFrame(l, value, writes))
  {
    var a := Apply(l.session, value, l.phase.resuming);
    var folded := l.(session := a.session, handed := l.handed + a.handed, counted := l.counted + a.counted);
    match a.step
    case Idle =>
    case Live(resumed) =>
      var tally := if resumed then l.tally.(resumes := l.tally.resumes + 1) else l.tally.(readies := l.tally.readies + 1);
      LeaveBudgets(folded.(attempt := 0, phase := l.phase.(live := true), tally := tally), writes);
    case Out(outcome) => EndBudgets(folded, outcome);
  }

  lemma StepBudgets(l: Link, i: Input)
    requires Budgeted(l) && Enabled(l, i)
    ensures Budgeted(Next(l, i))
  {
    match i
    case Dial(answers) => PauseBudgets(l);
    case Greet(hello, writes) => GreetBudgets(l, hello, writes);
    case Frame(value, writes) => FrameBudgets(l, value, writes);
    case Beat(writes) => BeatBudgets(l, writes);
    case Lost => EndBudgets(l, Dropped);
    case Take(writes) => TakeBudgets(l, writes);
    case _ => RestBudgets(l, i);
  }

  lemma RestBudgets(l: Link, i: Input)
    requires Budgeted(l) && Enabled(l, i) && (i.Post? || i.Check? || i.WaitEnds? || i.HandleGone?)
    ensures Budgeted(Next(l, i))
  {
  }

  lemma BeatBudgets(l: Link, writes: bool)
    requires Budgeted(l) && l.phase.Open?
    ensures Budgeted(OnBeat(l, writes))
  {
    EndBudgets(l, Dropped);
  }

  lemma WaitBudgets(l: Link, cmd: Cmd)
    requires Budgeted(l) && (l.phase.Pausing? || l.phase.NeedingToken?)
    ensures Budgeted(OnWait(l, cmd))
  {
  }

  lemma TakeBudgets(l: Link, writes: bool)
    requires Budgeted(l) && Enabled(l, Take(writes))
    ensures Budgeted(Next(l, Take(writes)))
  {
    var taken := l.(queue := l.queue[1..]);
    if l.phase.Open? {
      CommandBudgets(taken, l.queue[0], writes);
    } else {
      WaitBudgets(taken, l.queue[0]);
    }
  }

  lemma GreetBudgets(l: Link, hello: bool, writes: bool)
    requires Budgeted(l) && l.phase.Greeting?
    ensures Budgeted(Next(l, Greet(hello, writes)))
  {
    EndBudgets(l, Dropped);
  }

  lemma CommandBudgets(l: Link, cmd: Cmd, writes: bool)
    requires Budgeted(l) && l.phase.Open?
    ensures Budgeted(OnCommand(l, cmd, writes))
  {
    EndBudgets(l, Dropped);
    if cmd.LeaveVoice? {
      EndBudgets(l.(leaveVoice := true, latched := l.latched + {cmd.ticket}), Dropped);
    }
  }

  /** Redials made without waiting out a delay are bounded by the sessions begun
      and resumed and the retries honoured. */
  lemma {:induction false} QuickRedialsBounded(inputs: seq<Input>)
    ensures var t := After(inputs).tally; t.quick <= 1 + 2 * t.readies + t.resumes + 2 * t.retries
    ensures Budgeted(After(inputs))
  {
    if inputs != [] {
      var before := inputs[..|inputs| - 1];
      QuickRedialsBounded(before);
      if Enabled(After(before), inputs[|inputs| - 1]) {
        StepBudgets(After(before), inputs[|inputs| - 1]);
      }
    }
  }

  // ------------------------------------------------------------ the leave latch

  function Tickets(queue: seq<Cmd>): set<nat> { set c | c in queue && c.LeaveVoice? :: c.ticket }

  /** Every leave the queue took is still there, latched, or written. */
  ghost predicate Kept(l: Link) {
    && l.accepted == Tickets(l.queue) + l.latched + l.written
    && (l.leaveVoice <==> l.latched != {})
  }

  /** What a step may do to the leaves in hand: keep them, or write them all to a
      socket that is `ready` or `resumed`. */
  ghost predicate LatchMoves(l: Link, r: Link) {
    || (r.latched >= l.latched && r.written == l.written && (r.leaveVoice <==> r.latched != {}))
    || (r.phase.Open? && r.phase.live && !r.leaveVoice && r.latched == {} && r.written >= l.written + l.latched)
  }

  /** Nothing happened to the leaves in hand. */
  ghost predicate Untouched(l: Link, r: Link) {
    r.latched == l.latched && r.written == l.written && r.leaveVoice == l.leaveVoice && r.queue == l.queue && r.accepted == l.accepted
  }

  lemma EndLatch(l: Link, outcome: Outcome)
    ensures Untouched(l, End(l, outcome))
  {
  }

  lemma WriteLatch(l: Link, writes: bool)
    requires l.phase.Open? && l.phase.live && (l.leaveVoice <==> l.latched != {})
    ensures var r := WriteLeave(l, writes);
            LatchMoves(l, r) && r.latched + r.written == l.latched + l.written && r.queue == l.queue && r.accepted == l.accepted
  {
    EndLatch(l, Dropped);
  }

  lemma FrameLatch(l: Link, value: Value, writes: bool)
    requires Kept(l) && l.phase.Open?
    ensures var r := OnFrame(l, value, writes);
            LatchMoves(l, r) && r.latched + r.written == l.latched + l.written && r.queue == l.queue && r.accepted == l.accepted
  {
    var a := Apply(l.session, value, l.phase.resuming);
    var folded := l.(session := a.session, handed := l.handed + a.handed, counted := l.counted + a.counted);
    match a.step
    case Idle =>
    case Live(resumed) =>
      var tally := if resumed then l.tally.(resumes := l.tally.resumes + 1) else l.tally.(readies := l.tally.readies + 1);
      WriteLatch(folded.(attempt := 0, phase := l.phase.(live := true), tally := tally), writes);
    case Out(outcome) => EndLatch(folded, outcome);
  }

  lemma CommandLatch(l: Link, cmd: Cmd, writes: bool)
    requires l.phase.Open? && (l.leaveVoice <==> l.latched != {})
    ensures var r := OnCommand(l, cmd, writes);
            && LatchMoves(l, r) && r.queue == l.queue && r.accepted == l.accepted
            && r.latched + r.written == l.latched + l.written + Tickets([cmd])
  {
  }

  lemma OtherLatch(l: Link, i: Input)
    requires Enabled(l, i) && !i.Post? && !i.Frame? && !i.Take?
    ensures var r := Next(l, i);
            && r.latched == l.latched && r.written == l.written && r.leaveVoice == l.leaveVoice
            && r.queue == l.queue && r.accepted == l.accepted
  {
  }

  lemma WaitLatch(l: Link, cmd: Cmd)
    requires (l.phase.Pausing? || l.phase.NeedingToken?) && (l.leaveVoice <==> l.latched != {})
    ensures var r := OnWait(l, cmd);
            && LatchMoves(l, r) && r.queue == l.queue && r.accepted == l.accepted
            && r.latched + r.written == l.latched + l.written + Tickets([cmd])
  {
  }

  lemma TakenTicket(queue: seq<Cmd>)
    requires queue != []
    ensures Tickets(queue) == Tickets([queue[0]]) + Tickets(queue[1..])
  {
    assert queue == [queue[0]] + queue[1..];
  }

  lemma TakeKeeps(l: Link, writes: bool)
    requires Kept(l) && Enabled(l, Take(writes))
    ensures Kept(Next(l, Take(writes))) && LatchMoves(l, Next(l, Take(writes)))
  {
    TakenTicket(l.queue);
    var taken := l.(queue := l.queue[1..]);
    if l.phase.Open? {
      CommandLatch(taken, l.queue[0], writes);
    } else {
      WaitLatch(taken, l.queue[0]);
    }
    var r := Next(l, Take(writes));
    assert r.latched + r.written == l.latched + l.written + Tickets([l.queue[0]]);
  }

  lemma StepKeeps(l: Link, i: Input)
    requires Kept(l) && Enabled(l, i)
    ensures Kept(Next(l, i)) && LatchMoves(l, Next(l, i))
  {
    match i
    case Post(cmd) => assert Tickets(l.queue + [cmd]) == Tickets(l.queue) + Tickets([cmd]);
    case Frame(value, writes) => FrameLatch(l, value, writes);
    case Take(writes) => TakeKeeps(l, writes);
    case _ => OtherLatch(l, i);
  }

  /** An accepted `leave_voice` is, in every reachable state, queued, latched, or
      written after some socket's `ready` or `resumed`. */
  lemma {:induction false} LeavesAreKept(inputs: seq<Input>)
    ensures Kept(After(inputs))
  {
    if inputs != [] {
      var before := inputs[..|inputs| - 1];
      LeavesAreKept(before);
      if Enabled(After(before), inputs[|inputs| - 1]) {
        StepKeeps(After(before), inputs[|inputs| - 1]);
      }
    }
  }
}
