/** Mutual exclusion and freedom from circular waits, in every interleaving. */
module TokensSafety {
  import opened Common
  import opened Tokens

  predicate OpenAsk(task: Task) { task.Ask? && !Settled(task) }
  predicate OpenRotation(task: Task) { task.Rotation? && !Settled(task) }

  /** Task `i` waits only on a rotation or ask created before it, or on a change. */
  predicate WaitsBack(ts: seq<Task>, i: nat)
    requires i < |ts|
  {
    match ts[i]
    case Rotation(BehindAsk(a)) => a < i && ts[a].Ask?
    case Rotation(BehindChange(_, _, x)) => x < |ts| && ts[x].Change?
    case Ask(BehindAsks(before, r)) =>
      (before.Some? ==> before.value < i && ts[before.value].Ask?) && (r.Some? ==> r.value < i && ts[r.value].Rotation?)
    case Ask(BehindRotation(r)) => r.Some? ==> r.value < i && ts[r.value].Rotation?
    case Ask(BehindReplace(x)) => x.Some? ==> x.value < |ts| && ts[x.value].Change?
    case Renewal(BehindPair(x)) => x < |ts| && ts[x].Change?
    case Renewal(Following(r)) => r < |ts| && ts[r].Rotation?
    case _ => true
  }

  ghost predicate Shaped(c: Client) {
    && (forall i {:trigger c.tasks[i]} {:trigger WaitsBack(c.tasks, i)} :: 0 <= i < |c.tasks| ==> WaitsBack(c.tasks, i))
    && (c.asking.Some? ==> c.asking.value < |c.tasks| && c.tasks[c.asking.value].Ask?)
    && (c.changing.Some? ==> c.changing.value < |c.tasks| && c.tasks[c.changing.value].Change?)
  }

  /** The one rotation not yet settled is the one `#refreshing` holds. */
  ghost predicate OneRotation(c: Client) {
    && (c.refreshing.Some? ==> c.refreshing.value < |c.tasks| && OpenRotation(c.tasks[c.refreshing.value]))
    && (forall i :: 0 <= i < |c.tasks| && OpenRotation(c.tasks[i]) ==> c.refreshing == Some(i))
  }

  /** Asks settle oldest first, and the newest still out is behind `#asking`. */
  ghost predicate AsksInLine(c: Client) {
    && (forall a, b :: 0 <= b < a < |c.tasks| && c.tasks[a].Ask? && OpenAsk(c.tasks[b]) ==>
          c.tasks[a].ask.BehindAsks? && c.tasks[a].ask.before.Some? && b <= c.tasks[a].ask.before.value)
    && (forall b :: 0 <= b < |c.tasks| && OpenAsk(c.tasks[b]) ==> c.asking.Some? && b <= c.asking.value)
  }

  /** A rotation is behind every older ask, and every newer ask is behind it. */
  ghost predicate Apart(c: Client) {
    c.refreshing.Some? && c.refreshing.value < |c.tasks| && c.tasks[c.refreshing.value].Rotation? ==>
      var r := c.refreshing.value;
      forall b :: 0 <= b < |c.tasks| && OpenAsk(c.tasks[b]) ==>
        if b < r then c.tasks[r].rotation.BehindAsk? && b <= c.tasks[r].rotation.ask
        else
          || (c.tasks[b].ask.BehindAsks? && c.tasks[b].ask.refreshing == Some(r))
          || (c.tasks[b].ask.BehindRotation? && c.tasks[b].ask.refreshing == Some(r))
  }

  ghost predicate Inv(c: Client) { Shaped(c) && OneRotation(c) && AsksInLine(c) && Apart(c) }

  /** Task `j` of `ts` keeps waiting back in `us`, where no task changed kind. */
  lemma BackKept(ts: seq<Task>, us: seq<Task>, j: nat)
    requires j < |ts| <= |us| && WaitsBack(ts, j) && us[j] == ts[j]
    requires forall k :: 0 <= k < |ts| ==> SameKind(ts[k], us[k])
    ensures WaitsBack(us, j)
  {
  }

  predicate SameKind(a: Task, b: Task) {
    a.Ask? == b.Ask? && a.Rotation? == b.Rotation? && a.Change? == b.Change?
  }

  /** Appending a task that waits back keeps what `tasks` alone says. */
  lemma AppendShaped(c: Client, task: Task)
    requires Shaped(c) && WaitsBack(c.tasks + [task], |c.tasks|)
    ensures Shaped(c.(tasks := c.tasks + [task]))
  {
    var us := c.tasks + [task];
    forall j | 0 <= j < |c.tasks| ensures WaitsBack(us, j) { BackKept(c.tasks, us, j); }
  }

  lemma UpdateShaped(c: Client, i: nat, task: Task)
    requires Shaped(c) && i < |c.tasks| && SameKind(c.tasks[i], task)
    requires WaitsBack(c.tasks[i := task], i)
    ensures Shaped(c.(tasks := c.tasks[i := task]))
  {
    var us := c.tasks[i := task];
    forall j | 0 <= j < |c.tasks| && j != i ensures WaitsBack(us, j) { BackKept(c.tasks, us, j); }
  }

  lemma RotateKeeps(c: Client)
    requires Inv(c)
    ensures Inv(Rotate(c))
    ensures Rotate(c).refreshing.Some?
  {
    if c.refreshing.None? {
      AppendShaped(c, Rotate(c).tasks[|c.tasks|]);
    }
  }

  lemma RenewKeeps(c: Client)
    requires Inv(c)
    ensures Inv(Renew(c))
  {
    if c.refreshing.None? && c.changing.Some? {
      RenewalKeeps(c);
    } else {
      RotateKeeps(c);
    }
  }

  lemma RenewalKeeps(c: Client)
    requires Inv(c) && c.changing.Some?
    ensures Inv(c.(tasks := c.tasks + [Renewal(BehindPair(c.changing.value))]))
  {
    AppendShaped(c, Renewal(BehindPair(c.changing.value)));
  }

  lemma ReplaceKeeps(c: Client)
    requires Inv(c)
    ensures Inv(Replace(c))
  {
    AppendShaped(c, Change(Changing(Sent)));
  }

  lemma ShareSignInKeeps(c: Client)
    requires Inv(c)
    ensures Inv(ShareSignIn(c))
  {
    AppendShaped(c, Ask(BehindAsks(c.asking, c.refreshing)));
  }

  /** A task that is neither an ask nor a rotation may change phase freely. */
  lemma OthersKeep(c: Client, i: nat, task: Task)
    requires Inv(c) && i < |c.tasks| && !c.tasks[i].Ask? && !c.tasks[i].Rotation?
    requires SameKind(c.tasks[i], task) && WaitsBack(c.tasks[i := task], i)
    ensures Inv(c.(tasks := c.tasks[i := task]))
  {
    UpdateShaped(c, i, task);
  }

  /** A rotation moves on only once every ask older than it has settled. */
  lemma RotationKeeps(c: Client, i: nat, task: Task)
    requires Inv(c) && c.refreshing == Some(i) && OpenRotation(task) && WaitsBack(c.tasks[i := task], i)
    requires forall b :: 0 <= b < i ==> !OpenAsk(c.tasks[b])
    ensures Inv(c.(tasks := c.tasks[i := task]))
  {
    UpdateShaped(c, i, task);
  }

  lemma SettleKeeps(c: Client, i: nat, d: Client)
    requires Inv(c) && c.refreshing == Some(i)
    requires exists ok :: d.tasks == c.tasks[i := Rotation(Rotated(ok))]
    requires d.refreshing == None && d.asking == c.asking && d.changing == c.changing
    ensures Inv(d)
  {
    UpdateShaped(c, i, d.tasks[i]);
  }

  /** An ask moves on only past its own waits: every older ask, and the rotation it took note of. */
  lemma AskKeeps(c: Client, i: nat, task: Task)
    requires Inv(c) && i < |c.tasks| && OpenAsk(c.tasks[i]) && task.Ask? && WaitsBack(c.tasks[i := task], i)
    requires forall b :: 0 <= b < i ==> !OpenAsk(c.tasks[b])
    requires c.refreshing.Some? && c.refreshing.value < i ==>
               task.ask.BehindRotation? && task.ask.refreshing == c.refreshing
    ensures Inv(c.(tasks := c.tasks[i := task]))
  {
    UpdateShaped(c, i, task);
  }

  lemma ClearKeeps(c: Client)
    requires Inv(c)
    ensures c.asking.Some? && Past(c, c.asking) ==> Inv(c.(asking := None))
    ensures Inv(c.(changing := None))
  {
  }

  lemma ReplyKeeps(c: Client, i: nat, answer: Answer)
    requires Inv(c) && i < |c.tasks| && OnWire(c.tasks[i]).Some?
    ensures Inv(c.(tasks := c.tasks[i := WithAnswer(c.tasks[i], answer)]))
  {
    var task := WithAnswer(c.tasks[i], answer);
    match c.tasks[i]
    case Rotation(_) => RotationKeeps(c, i, task);
    case Ask(_) => AskKeeps(c, i, task);
    case Change(_) => OthersKeep(c, i, task);
    case Renewal(_) =>
  }

  lemma OlderAsksSettled(c: Client, i: nat)
    requires Inv(c) && i < |c.tasks| && Woken(c, i) && (c.tasks[i].Rotation? || c.tasks[i].Ask?)
    ensures forall b :: 0 <= b < i ==> !OpenAsk(c.tasks[b])
  {
  }

  lemma ResumeRotationKeeps(c: Client, i: nat)
    requires Inv(c) && i < |c.tasks| && Woken(c, i) && c.tasks[i].Rotation?
    ensures Inv(Resume(c, i))
  {
    OlderAsksSettled(c, i);
    RotationMoves(c, i);
    var d := Resume(c, i);
    if OpenRotation(d.tasks[i]) {
      RotationKeeps(c, i, d.tasks[i]);
    } else {
      SettleKeeps(c, i, d);
    }
  }

  /** What a rotation's stretch does: it goes on to its next wait, or settles. */
  lemma RotationMoves(c: Client, i: nat)
    requires Shaped(c) && OneRotation(c) && i < |c.tasks| && Woken(c, i) && c.tasks[i].Rotation?
    ensures var d := Resume(c, i);
            && c.refreshing == Some(i) && |d.tasks| == |c.tasks| && d.tasks[i].Rotation?
            && d.asking == c.asking && d.changing == c.changing && d.tasks == c.tasks[i := d.tasks[i]]
            && WaitsBack(d.tasks, i)
            && if OpenRotation(d.tasks[i]) then d == c.(tasks := d.tasks)
               else d.refreshing.None? && d.tasks[i] == Rotation(Rotated(d.tasks[i].rotation.ok))
  {
  }

  lemma ResumeAskKeeps(c: Client, i: nat)
    requires Inv(c) && i < |c.tasks| && Woken(c, i) && c.tasks[i].Ask?
    ensures Inv(Resume(c, i))
  {
    OlderAsksSettled(c, i);
    AskKeeps(c, i, Resume(c, i).tasks[i]);
  }

  lemma ResumeRenewalKeeps(c: Client, i: nat)
    requires Inv(c) && i < |c.tasks| && Woken(c, i) && c.tasks[i].Renewal?
    ensures Inv(Resume(c, i))
  {
    var d := Resume(c, i);
    if |d.tasks| == |c.tasks| && d.refreshing == c.refreshing {
      OthersKeep(c, i, d.tasks[i]);
    } else {
      RotateKeeps(c);
      OthersKeep(Rotate(c), i, d.tasks[i]);
    }
  }

  lemma ResumeKeeps(c: Client, i: nat)
    requires Inv(c) && i < |c.tasks| && Woken(c, i)
    ensures Inv(Resume(c, i))
  {
    match c.tasks[i]
    case Rotation(_) => ResumeRotationKeeps(c, i);
    case Ask(_) => ResumeAskKeeps(c, i);
    case Change(_) => OthersKeep(c, i, Resume(c, i).tasks[i]);
    case Renewal(_) => ResumeRenewalKeeps(c, i);
  }

  lemma NextKeeps(st: State, e: Event)
    requires Inv(st.client) && Enabled(st, e)
    ensures Inv(Next(st, e).client)
  {
    var c := st.client;
    match e
    case CallRenew => RenewKeeps(c);
    case CallReplace => ReplaceKeeps(c);
    case CallShareSignIn => ShareSignInKeeps(c);
    case Run(i) => ResumeKeeps(c, i);
    case ClearAsking => ClearKeeps(c);
    case ClearChanging => ClearKeeps(c);
    case Take(i) => ReplyKeeps(c, i, Serve(st.server, c.tasks[i]).1);
    case TakeQuietly(i) => ReplyKeeps(c, i, Nothing);
    case Reply(i, answer) => ReplyKeeps(c, i, answer);
    case Lose(i) => ReplyKeeps(c, i, Refused(Other));
    case Expire =>
  }

  lemma {:induction false} Always(events: seq<Event>)
    ensures Inv(After(events).client)
  {
    if events != [] {
      var before := events[..|events| - 1];
      Always(before);
      if Enabled(After(before), events[|events| - 1]) {
        NextKeeps(After(before), events[|events| - 1]);
      }
    }
  }

  /** Whether task `i` has a refresh, or a share window's ask, out at the server. */
  predicate RefreshInFlight(c: Client, i: nat) {
    i < |c.tasks| && c.tasks[i].Rotation? && c.tasks[i].rotation.Spending?
  }

  predicate AskInFlight(c: Client, i: nat) { i < |c.tasks| && c.tasks[i].Ask? && c.tasks[i].ask.Asking? }

  /** Whatever the server does and however calls interleave: no two refreshes, no two
      asks, and no refresh beside an ask are in flight together. */
  lemma MutualExclusion(events: seq<Event>, i: nat, j: nat)
    ensures var c := After(events).client;
            && (RefreshInFlight(c, i) && RefreshInFlight(c, j) ==> i == j)
            && !(RefreshInFlight(c, i) && AskInFlight(c, j))
            && (AskInFlight(c, i) && AskInFlight(c, j) ==> i == j)
  {
    Always(events);
  }

  // ------------------------------------------------------------- no deadlock

  /** Task `i` is stopped, or will be, at an await of task `j`. */
  predicate Awaits(ts: seq<Task>, i: nat, j: nat)
    requires i < |ts|
  {
    match ts[i]
    case Rotation(BehindAsk(a)) => a == j
    case Rotation(BehindChange(_, _, x)) => x == j
    case Ask(BehindAsks(before, r)) => before == Some(j) || r == Some(j)
    case Ask(BehindRotation(r)) => r == Some(j)
    case Ask(BehindReplace(x)) => x == Some(j)
    case Renewal(BehindPair(x)) => x == j
    case Renewal(Following(r)) => r == j
    case _ => false
  }

  /** Changes lie lowest, then rotations and asks in the order they were created, then
      the renewals that follow one of them. */
  function Height(ts: seq<Task>, i: nat): nat
    requires i < |ts|
  {
    if ts[i].Change? then 0 else if ts[i].Renewal? then |ts| + 1 else i + 1
  }

  lemma AwaitsBelow(ts: seq<Task>, i: nat, j: nat)
    requires i < |ts| && WaitsBack(ts, i) && Awaits(ts, i, j)
    ensures j < |ts| && Height(ts, j) < Height(ts, i)
  {
  }

  /** Each task awaits the one after it. */
  ghost predicate Chain(ts: seq<Task>, path: seq<nat>) {
    forall k :: 0 <= k < |path| - 1 ==> path[k] < |ts| && Awaits(ts, path[k], path[k + 1])
  }

  lemma {:induction false} ChainDescends(ts: seq<Task>, path: seq<nat>)
    requires |path| >= 2 && Chain(ts, path) && forall i: nat :: i < |ts| ==> WaitsBack(ts, i)
    ensures path[|path| - 1] < |ts| && Height(ts, path[|path| - 1]) < Height(ts, path[0])
    decreases |path|
  {
    var n := |path| - 1;
    AwaitsBelow(ts, path[n - 1], path[n]);
    if n > 1 {
      ChainDescends(ts, path[..n]);
    }
  }

  /** Nothing waits in a circle: in every reachable state, following awaits from task to
      task goes strictly down, so no chain of them comes back to where it began. */
  lemma NoCircularWait(events: seq<Event>, path: seq<nat>)
    requires |path| >= 2 && Chain(After(events).client.tasks, path)
    ensures var ts := After(events).client.tasks;
            path[|path| - 1] < |ts| && Height(ts, path[|path| - 1]) < Height(ts, path[0])
    ensures path[|path| - 1] != path[0]
  {
    Always(events);
    ChainDescends(After(events).client.tasks, path);
  }

  lemma {:induction false} FirstOpen(ts: seq<Task>, n: nat) returns (i: nat)
    requires n < |ts| && (OpenRotation(ts[n]) || OpenAsk(ts[n]))
    ensures i < |ts| && (OpenRotation(ts[i]) || OpenAsk(ts[i]))
    ensures forall k :: 0 <= k < i ==> !OpenRotation(ts[k]) && !OpenAsk(ts[k])
  {
    i := 0;
    while !OpenRotation(ts[i]) && !OpenAsk(ts[i])
      invariant i <= n
      invariant forall k :: 0 <= k < i ==> !OpenRotation(ts[k]) && !OpenAsk(ts[k])
      decreases n - i
    {
      i := i + 1;
    }
  }

  /** Whoever is not settled, somebody can go on or the server owes an answer. */
  lemma Progress(events: seq<Event>, n: nat)
    requires n < |After(events).client.tasks| && !Settled(After(events).client.tasks[n])
    ensures var c := After(events).client; exists i: nat :: i < |c.tasks| && (Woken(c, i) || Waits(c, i))
  {
    Always(events);
    var i := GoesOn(After(events).client, n);
  }

  lemma GoesOn(c: Client, n: nat) returns (i: nat)
    requires Shaped(c) && n < |c.tasks| && !Settled(c.tasks[n])
    ensures i < |c.tasks| && (Woken(c, i) || Waits(c, i))
  {
    if x: nat :| x < |c.tasks| && c.tasks[x].Change? && !Settled(c.tasks[x]) {
      i := x;
    } else if m: nat :| m < |c.tasks| && (OpenRotation(c.tasks[m]) || OpenAsk(c.tasks[m])) {
      i := FirstOpen(c.tasks, m);
      OldestGoesOn(c, i);
    } else {
      i := n;
      assert WaitsBack(c.tasks, n);
    }
  }

  lemma OldestGoesOn(c: Client, i: nat)
    requires i < |c.tasks| && WaitsBack(c.tasks, i) && (OpenRotation(c.tasks[i]) || OpenAsk(c.tasks[i]))
    requires forall k :: 0 <= k < i ==> !OpenRotation(c.tasks[k]) && !OpenAsk(c.tasks[k])
    requires forall x :: 0 <= x < |c.tasks| && c.tasks[x].Change? ==> Settled(c.tasks[x])
    ensures Woken(c, i) || Waits(c, i)
  {
  }

  function WireRank(wire: Wire): nat {
    match wire
    case Sent => 2
    case Answered(answer) => if answer == Refused(Other) then 0 else 1
  }

  /** How many more stretches and answers a task can take. */
  function TaskRank(task: Task): nat {
    match task
    case Rotation(BehindAsk(_)) => 6
    case Rotation(Spending(_, wire)) => 2 + WireRank(wire)
    case Rotation(BehindChange(_, _, _)) => 1
    case Rotation(Rotated(_)) => 0
    case Ask(BehindAsks(_, _)) => 6
    case Ask(BehindRotation(_)) => 5
    case Ask(BehindReplace(_)) => 4
    case Ask(Asking(_, wire)) => 1 + WireRank(wire)
    case Ask(Asked(_)) => 0
    case Change(Changing(wire)) => 1 + WireRank(wire)
    case Change(Changed(_)) => 0
    case Renewal(BehindPair(_)) => 8
    case Renewal(Following(_)) => 1
    case Renewal(Renewed(_)) => 0
  }

  function Total(ts: seq<Task>): nat {
    if ts == [] then 0 else Total(ts[..|ts| - 1]) + TaskRank(ts[|ts| - 1])
  }

  function Rank(c: Client): nat {
    Total(c.tasks) + (if c.asking.Some? then 1 else 0) + (if c.changing.Some? then 1 else 0)
  }

  lemma {:induction false} TotalUpdate(ts: seq<Task>, i: nat, task: Task)
    requires i < |ts|
    ensures Total(ts[i := task]) == Total(ts) - TaskRank(ts[i]) + TaskRank(task)
  {
    var n := |ts| - 1;
    if i < n {
      assert ts[i := task][..n] == ts[..n][i := task];
      TotalUpdate(ts[..n], i, task);
    } else {
      assert ts[i := task][..n] == ts[..n];
    }
  }

  lemma TotalAppend(ts: seq<Task>, task: Task)
    ensures Total(ts + [task]) == Total(ts) + TaskRank(task)
  {
    assert (ts + [task])[..|ts|] == ts;
  }

  /** A stretch changes the phase of its own task, and leaves less of it to do. */
  lemma ResumeMovesOne(c: Client, i: nat)
    requires i < |c.tasks| && Woken(c, i) && !c.tasks[i].Renewal?
    ensures var d := Resume(c, i);
            && d.asking == c.asking && d.changing == c.changing && |d.tasks| == |c.tasks|
            && d.tasks == c.tasks[i := d.tasks[i]]
            && TaskRank(d.tasks[i]) < TaskRank(c.tasks[i])
  {
  }

  lemma ResumeCounts(c: Client, i: nat)
    requires i < |c.tasks| && Woken(c, i)
    ensures Rank(Resume(c, i)) < Rank(c)
  {
    var d := Resume(c, i);
    if !c.tasks[i].Renewal? {
      ResumeMovesOne(c, i);
      TotalUpdate(c.tasks, i, d.tasks[i]);
    } else {
      RenewalCounts(c, i);
    }
  }

  lemma RenewalCounts(c: Client, i: nat)
    requires i < |c.tasks| && Woken(c, i) && c.tasks[i].Renewal?
    ensures Rank(Resume(c, i)) < Rank(c)
  {
    var d := Resume(c, i);
    if |d.tasks| == |c.tasks| {
      TotalUpdate(c.tasks, i, d.tasks[i]);
    } else {
      var rotating := Rotate(c);
      TotalAppend(c.tasks, rotating.tasks[|c.tasks|]);
      TotalUpdate(rotating.tasks, i, d.tasks[i]);
    }
  }

  /** Every event but a new call or an expiry brings the client closer to rest,
      so once no more calls are made every promise settles (with `Progress`). */
  lemma EveryStepCounts(st: State, e: Event)
    requires Enabled(st, e)
    requires !e.CallRenew? && !e.CallReplace? && !e.CallShareSignIn? && !e.Expire?
    ensures Rank(Next(st, e).client) < Rank(st.client)
  {
    var c, d := st.client, Next(st, e).client;
    if e.Run? {
      ResumeCounts(c, e.task);
    } else if !e.ClearAsking? && !e.ClearChanging? {
      TotalUpdate(c.tasks, e.task, d.tasks[e.task]);
    }
  }

  /** Events that finish work already begun, each enabled when it happens. */
  ghost predicate Winding(st: State, more: seq<Event>)
    decreases more
  {
    more == [] ||
    (var e := more[0];
     && Enabled(st, e) && !e.CallRenew? && !e.CallReplace? && !e.CallShareSignIn? && !e.Expire?
     && Winding(Next(st, e), more[1..]))
  }

  ghost function WoundDown(st: State, more: seq<Event>): State
    requires Winding(st, more)
    decreases more
  {
    if more == [] then st else WoundDown(Next(st, more[0]), more[1..])
  }

  lemma {:induction false} WindsDown(events: seq<Event>, st: State, more: seq<Event>)
    requires st == After(events) && Winding(st, more)
    ensures |more| <= Rank(st.client)
    ensures WoundDown(st, more) == After(events + more)
    decreases more
  {
    if more == [] {
      assert events + more == events;
    } else {
      EveryStepCounts(st, more[0]);
      var longer := events + [more[0]];
      assert longer[..|longer| - 1] == events;
      WindsDown(longer, Next(st, more[0]), more[1..]);
      assert longer + more[1..] == events + more;
    }
  }

  /** From any reachable state, with no new calls: at most `Rank` steps are left,
      and when nothing can go on and nothing is at the server, all is settled. */
  lemma EverythingSettles(events: seq<Event>, more: seq<Event>)
    requires Winding(After(events), more)
    ensures |more| <= Rank(After(events).client)
    ensures var c := WoundDown(After(events), more).client;
            (forall i: nat :: i < |c.tasks| ==> !Woken(c, i) && !Waits(c, i))
            ==> forall n :: 0 <= n < |c.tasks| ==> Settled(c.tasks[n])
  {
    WindsDown(events, After(events), more);
    var c := WoundDown(After(events), more).client;
    if n: nat :| n < |c.tasks| && !Settled(c.tasks[n]) {
      Progress(events + more, n);
    }
  }
}
