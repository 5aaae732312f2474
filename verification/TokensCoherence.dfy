/**
 Agreement between the held token and the server's, and no false sign-out.

 The world follows `Fair`: the server answers as PROTOCOL section 2 says or
 fails without taking anything, an answer that grants tokens arrives, and at most
 one password change is under way.
 */
module TokensCoherence {
  import opened Common
  import opened Tokens
  import opened TokensSafety

  predicate OpenChange(task: Task) { task.Change? && !Settled(task) }
  predicate MindsChange(task: Task) { task.Rotation? && task.rotation.BehindChange? }

  ghost predicate Fair(st: State, e: Event)
    requires Enabled(st, e)
  {
    var ts := st.client.tasks;
    match e
    case CallReplace => forall i :: 0 <= i < |ts| ==> !OpenChange(ts[i])
    case Reply(i, answer) => answer == Refused(Other) || (answer.Refused? && !ts[i].Rotation?)
    case Lose(i) => ts[i].Ask? || !OnWire(ts[i]).value.answer.Granted?
    case _ => true
  }

  ghost predicate FairRun(events: seq<Event>) {
    forall k {:trigger events[k]} :: 0 <= k < |events| && Enabled(After(events[..k]), events[k])
      ==> Fair(After(events[..k]), events[k])
  }

  /** The pair of a change the server has taken and the client hasn't heard of. */
  function Pending(c: Client): Option<Token> {
    if c.changing.Some? && c.changing.value < |c.tasks| then
      match c.tasks[c.changing.value]
      case Change(Changing(Answered(Granted(pair)))) => Some(pair)
      case _ => None
    else None
  }

  /** The token of a refresh the server has taken and the client will keep. */
  function Coming(c: Client): Option<Token> {
    if c.refreshing.Some? && c.refreshing.value < |c.tasks| then
      match c.tasks[c.refreshing.value]
      case Rotation(Spending(previous, Answered(Granted(pair)))) => if previous == c.held then Some(pair) else None
      case _ => None
    else None
  }

  function Expected(c: Client): Token {
    if Pending(c).Some? then Pending(c).value
    else if Coming(c).Some? then Coming(c).value
    else c.held
  }

  predicate Now(held: Token, token: Token) { token == held || token.family < held.family }

  predicate Denied(wire: Wire) { wire.Answered? && wire.answer.Refused? && wire.answer.code != Other }

  /** What each task's own request says about the held token. */
  ghost predicate Honest(c: Client, s: Server, task: Task) {
    match task
    case Rotation(Spending(previous, wire)) =>
      && Now(c.held, previous)
      && (wire.Answered? ==> wire.answer != Nothing)
      && (previous == c.held && wire.Answered? && wire.answer.Granted? ==> wire.answer.token == Token(c.held.family, c.held.serial + 1))
      && (previous == c.held && Pending(c).None? && Denied(wire) ==> !s.alive)
    case Rotation(BehindChange(previous, code, _)) =>
      && Now(c.held, previous)
      && (previous == c.held && code != Other && Pending(c).None? ==> !s.alive)
    case Ask(Asking(token, _)) => Now(c.held, token)
    case _ => true
  }

  ghost predicate OneChange(c: Client) {
    forall x :: 0 <= x < |c.tasks| && OpenChange(c.tasks[x]) ==> c.changing == Some(x)
  }

  ghost predicate Agrees(c: Client, s: Server) {
    && s.replays == 0
    && s.current == Expected(c)
    && s.current.family == c.held.family + (if Pending(c).Some? then 1 else 0)
  }

  ghost predicate Coherent(c: Client, s: Server) {
    && OneChange(c)
    && Agrees(c, s)
    && forall i :: 0 <= i < |c.tasks| ==> Honest(c, s, c.tasks[i])
  }

  /** What a task says stays true while the held token does, unless a pair that
      was on its way is gone or the sign-in came back with none on its way. */
  lemma StaysHonest(c: Client, s: Server, d: Client, z: Server, task: Task)
    requires Honest(c, s, task) && d.held == c.held
    requires Pending(d).None? ==> Pending(c).None? && (z.alive ==> s.alive)
    ensures Honest(d, z, task)
  {
  }

  /** A change of one task's phase that moves neither the held token nor what is
      on its way keeps agreement. */
  lemma UpdateKeeps(c: Client, s: Server, i: nat, d: Client, z: Server)
    requires Coherent(c, s) && i < |c.tasks| == |d.tasks| && d.tasks == c.tasks[i := d.tasks[i]] && d.held == c.held
    requires Pending(d) == Pending(c) && Coming(d) == Coming(c)
    requires OneChange(d) && Honest(d, z, d.tasks[i])
    requires z.current == s.current && z.replays == s.replays && (z.alive ==> s.alive)
    ensures Coherent(d, z)
  {
    forall j | 0 <= j < |d.tasks| && j != i ensures Honest(d, z, d.tasks[j]) {
      StaysHonest(c, s, d, z, c.tasks[j]);
    }
  }

  lemma ServeRotationKeeps(st: State, i: nat)
    requires Coherent(st.client, st.server) && OneRotation(st.client)
    requires Waits(st.client, i) && st.client.tasks[i].Rotation?
    ensures Coherent(Next(st, Take(i)).client, Next(st, Take(i)).server)
  {
    var c, s := st.client, st.server;
    var d, z := Next(st, Take(i)).client, Next(st, Take(i)).server;
    assert c.refreshing == Some(i) && Honest(c, s, c.tasks[i]);
    assert Pending(d) == Pending(c);
    forall j | 0 <= j < |d.tasks| && j != i ensures Honest(d, z, d.tasks[j]) {
      StaysHonest(c, s, d, z, c.tasks[j]);
    }
  }

  lemma ServeAskKeeps(st: State, i: nat)
    requires Coherent(st.client, st.server) && OneRotation(st.client) && Apart(st.client)
    requires Waits(st.client, i) && st.client.tasks[i].Ask?
    ensures Coherent(Next(st, Take(i)).client, Next(st, Take(i)).server)
  {
    var c, s := st.client, st.server;
    var d, z := Next(st, Take(i)).client, Next(st, Take(i)).server;
    assert Honest(c, s, c.tasks[i]) && Coming(c).None?;
    UpdateKeeps(c, s, i, d, z);
  }

  lemma ServeChangeKeeps(st: State, i: nat)
    requires Coherent(st.client, st.server) && OneRotation(st.client)
    requires Waits(st.client, i) && st.client.tasks[i].Change?
    ensures Coherent(Next(st, Take(i)).client, Next(st, Take(i)).server)
  {
    var c, s := st.client, st.server;
    var d, z := Next(st, Take(i)).client, Next(st, Take(i)).server;
    assert c.changing == Some(i) && Pending(c).None? && Pending(d).Some?;
    forall j | 0 <= j < |d.tasks| && j != i ensures Honest(d, z, d.tasks[j]) {
      StaysHonest(c, s, d, z, c.tasks[j]);
    }
  }

  /** An answer that grants nothing, at the server's word or because it got lost. */
  lemma AnswerKeeps(st: State, i: nat, answer: Answer, z: Server)
    requires Coherent(st.client, st.server) && OneRotation(st.client)
    requires i < |st.client.tasks| && OnWire(st.client.tasks[i]).Some?
    requires var wire := OnWire(st.client.tasks[i]).value;
             wire.Answered? ==> st.client.tasks[i].Ask? || !wire.answer.Granted?
    requires !answer.Granted? && (answer == Refused(Other) || !st.client.tasks[i].Rotation?)
    requires z == st.server || z == st.server.(alive := false)
    ensures Coherent(WithReply(st, i, answer).client, z)
  {
    var c, d := st.client, WithReply(st, i, answer).client;
    assert Honest(c, st.server, c.tasks[i]);
    assert Pending(d) == Pending(c) && Coming(d) == Coming(c);
    UpdateKeeps(c, st.server, i, d, z);
  }

  /** A call appends a task that has nothing to say yet. */
  lemma CallsKeep(c: Client, s: Server, d: Client)
    requires Coherent(c, s) && OneRotation(c)
    requires |d.tasks| == |c.tasks| + 1 && c.tasks == d.tasks[..|c.tasks|] && d.held == c.held
    requires d.changing == c.changing || (d.changing == Some(|c.tasks|) && Pending(c).None?)
    requires d.refreshing == c.refreshing || (d.refreshing == Some(|c.tasks|) && c.refreshing.None?)
    requires OneChange(d) && Honest(d, s, d.tasks[|c.tasks|])
    requires var wire := OnWire(d.tasks[|c.tasks|]); wire.Some? ==> wire.value == Sent
    requires c.changing.Some? ==> c.changing.value < |c.tasks|
    ensures Coherent(d, s)
  {
    assert forall j :: 0 <= j < |c.tasks| ==> d.tasks[j] == c.tasks[j];
    assert Pending(d) == Pending(c) && Coming(d) == Coming(c);
    forall j | 0 <= j < |c.tasks| ensures Honest(d, s, d.tasks[j]) {
      StaysHonest(c, s, d, s, c.tasks[j]);
    }
  }

  lemma RunRotationKeeps(c: Client, s: Server, i: nat)
    requires Coherent(c, s) && OneRotation(c) && Apart(c)
    requires i < |c.tasks| && Woken(c, i) && c.tasks[i].Rotation?
    ensures Coherent(Resume(c, i), s)
  {
    var d := Resume(c, i);
    assert c.refreshing == Some(i) && Honest(c, s, c.tasks[i]);
    if Coming(c).None? {
      assert |d.tasks| == |c.tasks| && d.tasks == c.tasks[i := d.tasks[i]];
      assert Pending(d) == Pending(c) && Coming(d) == Coming(c);
      UpdateKeeps(c, s, i, d, s);
    } else {
      TakesPair(c, s, i);
    }
  }

  /** The rotation that spent the held token takes the pair it was granted. */
  lemma TakesPair(c: Client, s: Server, i: nat)
    requires Coherent(c, s) && OneRotation(c) && Apart(c) && c.refreshing == Some(i) && Coming(c).Some?
    ensures Coherent(SettleRotation(Hold(c, Coming(c).value), i, true), s)
  {
    var d := SettleRotation(Hold(c, Coming(c).value), i, true);
    assert Honest(c, s, c.tasks[i]);
    assert forall j :: 0 <= j < |c.tasks| && j != i ==> !OpenRotation(c.tasks[j]) && !AskInFlight(c, j);
    assert Pending(d) == Pending(c);
  }

  lemma RunAskKeeps(c: Client, s: Server, i: nat)
    requires Coherent(c, s) && OneRotation(c) && i < |c.tasks| && Woken(c, i) && c.tasks[i].Ask?
    ensures Coherent(Resume(c, i), s)
  {
    var d := Resume(c, i);
    assert Pending(d) == Pending(c) && Coming(d) == Coming(c);
    UpdateKeeps(c, s, i, d, s);
  }

  lemma RunChangeKeeps(c: Client, s: Server, i: nat)
    requires Coherent(c, s) && OneRotation(c) && i < |c.tasks| && Woken(c, i) && c.tasks[i].Change?
    ensures Coherent(Resume(c, i), s)
  {
    var d := Resume(c, i);
    assert c.changing == Some(i) && Pending(d).None?;
    if d.held == c.held {
      UpdateKeeps(c, s, i, d, s);
    } else {
      assert Coming(d).None?;
      forall j | 0 <= j < |d.tasks| && j != i ensures Honest(d, s, d.tasks[j]) {
        assert Honest(c, s, c.tasks[j]);
      }
    }
  }

  lemma RotateCoheres(c: Client, s: Server)
    requires Coherent(c, s) && OneRotation(c)
    requires c.changing.Some? ==> c.changing.value < |c.tasks|
    ensures Coherent(Rotate(c), s)
  {
    if c.refreshing.None? {
      CallsKeep(c, s, Rotate(c));
    }
  }

  lemma RenewalMoves(c: Client, s: Server, i: nat, phase: RenewalPhase)
    requires Coherent(c, s) && OneRotation(c) && i < |c.tasks| && c.tasks[i].Renewal?
    ensures Coherent(c.(tasks := c.tasks[i := Renewal(phase)]), s)
  {
    var d := c.(tasks := c.tasks[i := Renewal(phase)]);
    assert Pending(d) == Pending(c) && Coming(d) == Coming(c);
    UpdateKeeps(c, s, i, d, s);
  }

  lemma RunRenewalKeeps(c: Client, s: Server, i: nat)
    requires Coherent(c, s) && OneRotation(c) && i < |c.tasks| && Woken(c, i) && c.tasks[i].Renewal?
    requires c.changing.Some? ==> c.changing.value < |c.tasks|
    ensures Coherent(Resume(c, i), s)
  {
    if c.tasks[i].renewal.BehindPair? && !c.tasks[c.tasks[i].renewal.change].change.brought {
      RotateCoheres(c, s);
      RenewalMoves(Rotate(c), s, i, Following(Rotate(c).refreshing.value));
    } else {
      RenewalMoves(c, s, i, Resume(c, i).tasks[i].renewal);
    }
  }

  lemma CallKeeps(st: State, e: Event)
    requires Coherent(st.client, st.server) && Inv(st.client)
    requires (e.CallRenew? || e.CallReplace? || e.CallShareSignIn?) && Fair(st, e)
    ensures Coherent(Next(st, e).client, st.server)
  {
    var c, d := st.client, Next(st, e).client;
    RotateCoheres(c, st.server);
    if |d.tasks| != |c.tasks| {
      CallsKeep(c, st.server, d);
    }
  }

  lemma StepKeeps(st: State, e: Event)
    requires Coherent(st.client, st.server) && Inv(st.client) && Enabled(st, e) && Fair(st, e)
    ensures Coherent(Next(st, e).client, Next(st, e).server)
  {
    var c, s := st.client, st.server;
    match e
    case Run(i) =>
      match c.tasks[i] {
        case Rotation(_) => RunRotationKeeps(c, s, i);
        case Ask(_) => RunAskKeeps(c, s, i);
        case Change(_) => RunChangeKeeps(c, s, i);
        case Renewal(_) => RunRenewalKeeps(c, s, i);
      }
    case Take(i) =>
      match c.tasks[i] {
        case Rotation(_) => ServeRotationKeeps(st, i);
        case Ask(_) => ServeAskKeeps(st, i);
        case _ => ServeChangeKeeps(st, i);
      }
    case TakeQuietly(i) => AnswerKeeps(st, i, Nothing, s.(alive := false));
    case Reply(i, answer) => AnswerKeeps(st, i, answer, s);
    case Lose(i) => AnswerKeeps(st, i, Refused(Other), s);
    case ClearAsking => ClearsKeep(st, e);
    case ClearChanging => ClearsKeep(st, e);
    case Expire => ClearsKeep(st, e);
    case _ => CallKeeps(st, e);
  }

  lemma ClearsKeep(st: State, e: Event)
    requires Coherent(st.client, st.server) && Enabled(st, e)
    requires e.ClearAsking? || e.ClearChanging? || e.Expire?
    ensures Coherent(Next(st, e).client, Next(st, e).server)
  {
    var c, s := st.client, st.server;
    var d, z := Next(st, e).client, Next(st, e).server;
    assert Pending(d) == Pending(c) && Coming(d) == Coming(c);
    forall j | 0 <= j < |d.tasks| ensures Honest(d, z, d.tasks[j]) {
      StaysHonest(c, s, d, z, c.tasks[j]);
    }
  }

  lemma FairPrefix(events: seq<Event>, n: nat)
    requires FairRun(events) && n <= |events|
    ensures FairRun(events[..n])
  {
    assert forall k :: 0 <= k < n ==> events[..n][k] == events[k] && events[..n][..k] == events[..k];
  }

  lemma {:induction false} AlwaysCoherent(events: seq<Event>)
    requires FairRun(events)
    ensures Coherent(After(events).client, After(events).server)
  {
    if events != [] {
      var n := |events| - 1;
      var before := events[..n];
      FairPrefix(events, n);
      AlwaysCoherent(before);
      Always(before);
      if Enabled(After(before), events[n]) {
        StepKeeps(After(before), events[n]);
      }
    }
  }

  // ------------------------------------------------------------ what it gives

  /** No run presents a spent token of the standing sign-in, in a refresh or in
      an ask; and with nothing of either kind at the server, the held token is
      the server's current one. */
  lemma HeldIsCurrent(events: seq<Event>)
    requires FairRun(events)
    ensures var st := After(events);
            && st.server.replays == 0
            && ((forall i: nat :: !RefreshInFlight(st.client, i))
                && (forall i :: 0 <= i < |st.client.tasks| ==> !OpenChange(st.client.tasks[i]))
                ==> st.client.held == st.server.current)
  {
    AlwaysCoherent(events);
    Always(events);
    var c := After(events).client;
    if Coming(c).Some? {
      assert RefreshInFlight(c, c.refreshing.value);
    }
  }

  /** Without a change under way, whatever is at the server unanswered carries
      the server's current token, unless the sign-in is over there. */
  lemma PresentsTheCurrentToken(events: seq<Event>, i: nat)
    requires FairRun(events) && Waits(After(events).client, i)
    requires var ts := After(events).client.tasks; forall k :: 0 <= k < |ts| ==> !OpenChange(ts[k])
    ensures var st := After(events);
            match st.client.tasks[i]
            case Rotation(phase) => phase.previous == st.server.current || phase.previous.family < st.server.current.family
            case Ask(phase) => phase.token == st.server.current || phase.token.family < st.server.current.family
            case _ => true
  {
    AlwaysCoherent(events);
    Always(events);
    assert Honest(After(events).client, After(events).server, After(events).client.tasks[i]);
  }

  ghost predicate ChangeUnderWay(c: Client) { exists x :: 0 <= x < |c.tasks| && OpenChange(c.tasks[x]) }

  /** Rotation `i` has yet to wake from one change, and a later one is under way. */
  predicate TooSoon(c: Client, i: nat) {
    && i < |c.tasks| && MindsChange(c.tasks[i])
    && c.changing.Some? && c.changing.value < |c.tasks| && OpenChange(c.tasks[c.changing.value])
    && c.changing.value != c.tasks[i].rotation.change
  }

  lemma StepSignsOut(c: Client, s: Server, i: nat)
    requires Coherent(c, s) && i < |c.tasks| && Woken(c, i) && Resume(c, i).signedOut != c.signedOut
    ensures Resume(c, i).signedOut == c.signedOut + [c.held]
    ensures s.alive ==> Pending(c) == Some(s.current)
    ensures ChangeUnderWay(c) <==> TooSoon(c, i)
  {
    assert c.tasks[i].Rotation? && Honest(c, s, c.tasks[i]);
  }

  /** `onSignedOut` in a fair run: it is called over the token held, and wrongly, with
      the sign-in alive at the server or a change under way, exactly when the rotation
      has yet to wake from one change and a later one is under way. */
  lemma NoFalseSignOut(events: seq<Event>, e: Event)
    requires FairRun(events) && Enabled(After(events), e)
    requires Next(After(events), e).client.signedOut != After(events).client.signedOut
    ensures e.Run?
    ensures var st := After(events);
            && Next(st, e).client.signedOut == st.client.signedOut + [st.client.held]
            && (st.server.alive ==> Pending(st.client) == Some(st.server.current))
            && (st.server.alive || ChangeUnderWay(st.client) <==> TooSoon(st.client, e.task))
  {
    AlwaysCoherent(events);
    StepSignsOut(After(events).client, After(events).server, e.task);
  }

  /** Waking rotation `i` now would sign out, although the sign-in is alive at the server
      or a change is under way. */
  ghost predicate WrongSignOut(st: State, i: nat) {
    && i < |st.client.tasks| && Woken(st.client, i) && Resume(st.client, i).signedOut != st.client.signedOut
    && (st.server.alive || ChangeUnderWay(st.client))
  }

  /** Rotation `i` was refused the token still held, and the change it waited for is over
      and brought nothing: it will sign out when it wakes. */
  predicate Condemned(c: Client, i: nat) {
    && i < |c.tasks| && MindsChange(c.tasks[i])
    && var phase := c.tasks[i].rotation;
       phase.previous == c.held && phase.code != Other && phase.change < |c.tasks| && c.tasks[phase.change] == Change(Changed(false))
  }

  lemma CondemnedSignsOut(c: Client, i: nat)
    requires Condemned(c, i)
    ensures Woken(c, i) && Resume(c, i).signedOut == c.signedOut + [c.held]
  {
  }

  /** The wrong sign-outs are those of condemned rotations with a later change under way. */
  lemma WrongExactlyWhen(events: seq<Event>, i: nat)
    requires FairRun(events)
    ensures var st := After(events); WrongSignOut(st, i) <==> Condemned(st.client, i) && TooSoon(st.client, i)
  {
    var st := After(events);
    if WrongSignOut(st, i) {
      NoFalseSignOut(events, Run(i));
      SignsOutOverTheHeldToken(events, Run(i));
    } else if Condemned(st.client, i) && TooSoon(st.client, i) {
      CondemnedSignsOut(st.client, i);
    }
  }

  /** A password change begun while a rotation is about to sign out: its refusal is in,
      and so is that of the change it waited for. */
  ghost predicate Rash(st: State, e: Event) { e.CallReplace? && exists i: nat :: Condemned(st.client, i) }

  lemma RashIsDoom(st: State, i: nat)
    requires Condemned(st.client, i)
    ensures var d := Next(st, CallReplace).client; Condemned(d, i) && TooSoon(d, i)
  {
  }

  lemma RunIsPatient(c: Client, s: Server, j: nat, i: nat)
    requires Inv(c) && Coherent(c, s) && j < |c.tasks| && Woken(c, j)
    requires Condemned(Resume(c, j), i) && TooSoon(Resume(c, j), i)
    ensures Condemned(c, i) && TooSoon(c, i)
  {
    var d := Resume(c, j);
    if !c.tasks[j].Renewal? {
      ResumeMovesOne(c, j);
    }
  }

  lemma StepIsPatient(st: State, e: Event, i: nat)
    requires Inv(st.client) && Coherent(st.client, st.server) && Enabled(st, e) && !Rash(st, e)
    requires !(Condemned(st.client, i) && TooSoon(st.client, i))
    ensures var d := Next(st, e).client; !(Condemned(d, i) && TooSoon(d, i))
  {
    var d := Next(st, e).client;
    if e.Run? {
      if Condemned(d, i) && TooSoon(d, i) {
        RunIsPatient(st.client, st.server, e.task, i);
      }
    } else if e.CallReplace? {
      assert !Condemned(st.client, i);
    } else {
      OtherIsPatient(st, e, i);
    }
  }

  lemma OtherIsPatient(st: State, e: Event, i: nat)
    requires Enabled(st, e) && !e.Run? && !e.CallReplace? && Shaped(st.client)
    requires !(Condemned(st.client, i) && TooSoon(st.client, i))
    ensures var d := Next(st, e).client; !(Condemned(d, i) && TooSoon(d, i))
  {
  }

  lemma FairStepIsPatient(events: seq<Event>, e: Event, i: nat)
    requires FairRun(events) && Enabled(After(events), e) && !Rash(After(events), e)
    requires var c := After(events).client; !(Condemned(c, i) && TooSoon(c, i))
    ensures var d := Next(After(events), e).client; !(Condemned(d, i) && TooSoon(d, i))
  {
    AlwaysCoherent(events);
    Always(events);
    StepIsPatient(After(events), e, i);
  }

  ghost predicate RashAt(events: seq<Event>, k: nat)
    requires k < |events|
  {
    Rash(After(events[..k]), events[k])
  }

  lemma {:induction false} PatientRun(events: seq<Event>, n: nat, i: nat)
    requires FairRun(events) && n <= |events| && forall k: nat :: k < n ==> !RashAt(events, k)
    ensures var c := After(events[..n]).client; !(Condemned(c, i) && TooSoon(c, i))
    decreases n
  {
    if n > 0 {
      PatientRun(events, n - 1, i);
      assert !RashAt(events, n - 1);
      assert events[..n][..n - 1] == events[..n - 1];
      FairPrefix(events, n - 1);
      if Enabled(After(events[..n - 1]), events[n - 1]) {
        FairStepIsPatient(events[..n - 1], events[n - 1], i);
      }
    }
  }

  /** After `k` events, waking rotation `i` would sign out wrongly. */
  ghost predicate WrongAt(events: seq<Event>, k: nat, i: nat)
    requires k <= |events|
  {
    WrongSignOut(After(events[..k]), i)
  }

  lemma RashLeadsThere(events: seq<Event>, k: nat) returns (i: nat)
    requires FairRun(events) && k < |events| && RashAt(events, k)
    ensures WrongAt(events, k + 1, i)
  {
    i :| Condemned(After(events[..k]).client, i);
    RashIsDoom(After(events[..k]), i);
    assert events[..k + 1][..k] == events[..k];
    FairPrefix(events, k + 1);
    WrongExactlyWhen(events[..k + 1], i);
  }

  lemma NeverRashNeverWrong(events: seq<Event>, k: nat, i: nat)
    requires FairRun(events) && k <= |events| && forall j: nat :: j < k ==> !RashAt(events, j)
    ensures !WrongAt(events, k, i)
  {
    FairPrefix(events, k);
    WrongExactlyWhen(events[..k], i);
    PatientRun(events, k, i);
  }

  /** So a fair run comes to where a rotation would sign out wrongly exactly when some
      password change in it was begun while a rotation was about to sign out: refused the
      token still held, with the change it waited for over and nothing brought. */
  lemma WrongSignOutExactlyWhen(events: seq<Event>)
    requires FairRun(events)
    ensures (exists k: nat, i: nat :: k <= |events| && WrongAt(events, k, i)) <==>
            (exists k: nat :: k < |events| && RashAt(events, k))
  {
    if k: nat :| k < |events| && RashAt(events, k) {
      var i := RashLeadsThere(events, k);
    } else if k: nat, i: nat :| k <= |events| && WrongAt(events, k, i) {
      NeverRashNeverWrong(events, k, i);
    }
  }

  /** A password change may begin exactly when no other is under way: beginning one
      keeps client and server coherent just then. */
  lemma ReplaceCoheresExactlyWhen(st: State)
    requires Coherent(st.client, st.server) && Inv(st.client)
    ensures Coherent(Next(st, CallReplace).client, st.server) <==> !ChangeUnderWay(st.client)
  {
    var c, d := st.client, Next(st, CallReplace).client;
    if ChangeUnderWay(c) {
      var x :| 0 <= x < |c.tasks| && OpenChange(c.tasks[x]);
      assert OpenChange(d.tasks[x]) && d.changing == Some(|c.tasks|);
    } else {
      CallKeeps(st, CallReplace);
    }
  }

  /** Against any server at all, `onSignedOut` is called only over the token
      still held, on a refusal, by the one rotation there is. */
  lemma SignsOutOverTheHeldToken(events: seq<Event>, e: Event)
    requires Enabled(After(events), e)
    requires Next(After(events), e).client.signedOut != After(events).client.signedOut
    ensures var c := After(events).client;
            && e.Run? && c.refreshing == Some(e.task)
            && Next(After(events), e).client.signedOut == c.signedOut + [c.held]
            && match c.tasks[e.task].rotation
               case Spending(previous, wire) => previous == c.held && Denied(wire) && c.changing.None?
               case BehindChange(previous, code, x) =>
                 previous == c.held && code != Other && c.tasks[x] == Change(Changed(false))
               case _ => false
  {
    Always(events);
  }

  /** A step of a fair run replaces the held token only by the next one of its
      family, by the rotation that spent it, or by a change's newer family. */
  lemma StepReplaces(st: State, e: Event)
    requires Coherent(st.client, st.server) && Enabled(st, e)
    ensures var (held, now) := (st.client.held, Next(st, e).client.held);
            && held.family <= now.family
            && (now != held && now.family == held.family ==>
                  now.serial == held.serial + 1 && e.Run? && st.client.tasks[e.task] == Rotation(Spending(held, Answered(Granted(now)))))
  {
    if e.Run? {
      assert Honest(st.client, st.server, st.client.tasks[e.task]);
    }
  }

  /** So a change's pair is never overwritten by a rotation that spent a token
      from before it: the family held never goes back. */
  lemma PairNeverOverwritten(events: seq<Event>, k: nat)
    requires FairRun(events) && k <= |events|
    ensures After(events[..k]).client.held.family <= After(events).client.held.family
  {
    forall j: nat | j < |events| ensures FamilyAt(events, j) <= FamilyAt(events, j + 1) {
      FamilyStep(events, j);
    }
    Climbs(events, k, |events|);
    assert events[..|events|] == events;
  }

  /** The family held after `k` events. */
  ghost function FamilyAt(events: seq<Event>, k: nat): nat
    requires k <= |events|
  {
    After(events[..k]).client.held.family
  }

  lemma FamilyStep(events: seq<Event>, k: nat)
    requires FairRun(events) && k < |events|
    ensures FamilyAt(events, k) <= FamilyAt(events, k + 1)
  {
    FairPrefix(events, k + 1);
    LastStepKeepsFamily(events[..k + 1]);
    assert events[..k + 1][..k] == events[..k];
  }

  lemma {:induction false} Climbs(events: seq<Event>, k: nat, n: nat)
    requires k <= n <= |events|
    requires forall j: nat :: j < |events| ==> FamilyAt(events, j) <= FamilyAt(events, j + 1)
    ensures FamilyAt(events, k) <= FamilyAt(events, n)
    decreases n
  {
    if k < n {
      Climbs(events, k, n - 1);
      assert FamilyAt(events, n - 1) <= FamilyAt(events, n - 1 + 1);
    }
  }

  lemma LastStepKeepsFamily(events: seq<Event>)
    requires FairRun(events) && events != []
    ensures After(events[..|events| - 1]).client.held.family <= After(events).client.held.family
  {
    var before, e := events[..|events| - 1], events[|events| - 1];
    FairPrefix(events, |events| - 1);
    if Enabled(After(before), e) {
      FairStepKeepsFamily(before, e);
    }
  }

  lemma FairStepKeepsFamily(events: seq<Event>, e: Event)
    requires FairRun(events) && Enabled(After(events), e)
    ensures After(events).client.held.family <= Next(After(events), e).client.held.family
  {
    AlwaysCoherent(events);
    StepReplaces(After(events), e);
  }

  // ------------------------------------------- what the assumptions are for

  /** A change whose pair may still come. */
  predicate MayBring(task: Task) {
    task.Change? && task.change.Changing? && (task.change.wire.Sent? || task.change.wire.answer.Granted?)
  }

  /** Begin a second change, let the server take the first, if it hasn't, and then the
      second, and let the second's answer be heard before the first's. */
  ghost function Overlapped(st: State, x: nat): State
    requires x < |st.client.tasks| && MayBring(st.client.tasks[x])
  {
    var y := |st.client.tasks|;
    var begun := Next(st, CallReplace);
    var taken := if Waits(st.client, x) then Next(begun, Take(x)) else begun;
    var both := Next(taken, Take(y));
    Next(Next(both, Run(y)), Run(x))
  }

  /** From any coherent state with a change under way whose pair may still come, beginning
      another can so end with both over and the held token of a family the server has
      ended, while the sign-in it gave the second change stands. */
  lemma OverlapLoses(st: State, x: nat)
    requires Coherent(st.client, st.server) && x < |st.client.tasks| && MayBring(st.client.tasks[x])
    ensures var r := Overlapped(st, x);
            && r.server.alive && r.client.held.family < r.server.current.family
            && !ChangeUnderWay(r.client)
  {
    var y := |st.client.tasks|;
    var begun := Next(st, CallReplace);
    var taken := if Waits(st.client, x) then Next(begun, Take(x)) else begun;
    FirstTaken(st, x, taken);
    var both := Next(taken, Take(y));
    var second := Next(both, Run(y));
    assert second.client.tasks[x] == taken.client.tasks[x];
  }

  lemma FirstTaken(st: State, x: nat, taken: State)
    requires Coherent(st.client, st.server) && x < |st.client.tasks| && MayBring(st.client.tasks[x])
    requires var begun := Next(st, CallReplace); taken == if Waits(st.client, x) then Next(begun, Take(x)) else begun
    ensures |taken.client.tasks| == |st.client.tasks| + 1
    ensures taken.client.tasks[x] == Change(Changing(Answered(Granted(taken.server.current))))
    ensures taken.client.tasks[|st.client.tasks|] == Change(Changing(Sent))
    ensures forall k :: 0 <= k < |st.client.tasks| && OpenChange(taken.client.tasks[k]) ==> k == x
  {
    assert OpenChange(st.client.tasks[x]) && st.client.changing == Some(x);
  }

  /** A state some run reaches. */
  ghost predicate Reached(st: State) { exists events :: After(events) == st }

  lemma Then(st: State, e: Event) returns (next: State)
    requires Reached(st) && Enabled(st, e)
    ensures Reached(next) && next == Next(st, e)
  {
    next := Next(st, e);
    var events :| After(events) == st;
    assert (events + [e])[..|events|] == events;
    assert After(events + [e]) == next;
  }

  lemma Starts() returns (st: State)
    ensures Reached(st) && st == Start()
  {
    st := Start();
    assert After([]) == st;
  }

  /** If the answer to an accepted refresh is lost, the next renewal is a replay
      and ends the sign-in: `Fair` cannot allow that loss. */
  lemma LostAnswerReplays() returns (st: State)
    ensures Reached(st) && st.server.replays == 1 && !st.server.alive
  {
    st := Starts();
    st := Then(st, CallRenew);
    st := Then(st, Take(0));
    st := Then(st, Lose(0));
    assert st.client.tasks == [Rotation(Spending(Token(0, 0), Answered(Refused(Other))))];
    st := Then(st, Run(0));
    st := Then(st, CallRenew);
    assert st.client.tasks == [Rotation(Rotated(false)), Rotation(Spending(Token(0, 0), Sent))];
    st := Then(st, Take(1));
  }

  /** A state some fair run reaches. */
  ghost predicate FairlyReached(st: State) { exists events :: FairRun(events) && After(events) == st }

  lemma StartsFairly() returns (st: State)
    ensures FairlyReached(st) && st == Start()
  {
    st := Start();
    var none: seq<Event> := [];
    assert FairRun(none) && After(none) == st;
  }

  lemma FairThen(st: State, e: Event) returns (next: State)
    requires FairlyReached(st) && Enabled(st, e) && Fair(st, e)
    ensures FairlyReached(next) && next == Next(st, e)
  {
    next := Next(st, e);
    var events :| FairRun(events) && After(events) == st;
    var longer := events + [e];
    assert longer[..|events|] == events;
    assert forall k :: 0 <= k < |events| ==> longer[k] == events[k] && longer[..k] == events[..k];
    assert FairRun(longer) && After(longer) == next;
  }

  /** With one change under way at a time: the first was refused, a rotation has yet to
      wake from it, and the client signs out with the second change's pair on its way. */
  lemma SecondChangeTooSoon() returns (st: State)
    ensures FairlyReached(st) && Enabled(st, Run(0)) && st.client.signedOut == []
    ensures Next(st, Run(0)).client.signedOut == [Token(0, 0)]
    ensures st.server.alive && Pending(st.client) == Some(st.server.current)
  {
    st := SecondPairComing();
  }

  /** A rotation yet to wake from a refused change, and a second change. */
  function Second(change: Task, s: Server): State {
    State(Client(Token(0, 0), Some(0), Some(2), None,
                 [Rotation(BehindChange(Token(0, 0), Unauthenticated, 1)), Change(Changed(false)), change], [], []), s)
  }

  lemma SecondChangeOut() returns (st: State)
    ensures FairlyReached(st) && st == Second(Change(Changing(Sent)), Server(Token(0, 0), false, 0))
  {
    st := FirstChangeRefused();
    st := FairThen(st, CallReplace);
  }

  lemma SecondPairComing() returns (st: State)
    ensures FairlyReached(st)
    ensures st == Second(Change(Changing(Answered(Granted(Token(1, 0))))), Server(Token(1, 0), true, 0))
  {
    st := SecondChangeOut();
    var pair := Granted(Token(1, 0));
    assert Serve(st.server, st.client.tasks[2]) == (Server(Token(1, 0), true, 0), pair);
    assert st.client.tasks[2 := Change(Changing(Answered(pair)))] ==
           Second(Change(Changing(Answered(pair))), st.server).client.tasks;
    st := FairThen(st, Take(2));
  }

  /** A rotation refused while the change `change` was out. */
  function Minding(change: Task): seq<Task> { [Rotation(BehindChange(Token(0, 0), Unauthenticated, 1)), change] }

  /** One rotation, one change, and a sign-in that has run out. */
  function RunOut(tasks: seq<Task>): State {
    State(Client(Token(0, 0), Some(0), Some(1), None, tasks, [], []), Server(Token(0, 0), false, 0))
  }

  lemma BothOut() returns (st: State)
    ensures FairlyReached(st) && st == RunOut([Rotation(Spending(Token(0, 0), Sent)), Change(Changing(Sent))])
  {
    st := StartsFairly();
    st := FairThen(st, Expire);
    st := FairThen(st, CallRenew);
    assert st.client.tasks == [Rotation(Spending(Token(0, 0), Sent))];
    st := FairThen(st, CallReplace);
  }

  lemma RotationRefused() returns (st: State)
    ensures FairlyReached(st) && st == RunOut(Minding(Change(Changing(Sent))))
  {
    st := BothOut();
    st := FairThen(st, Take(0));
    var refused := Answered(Refused(Unauthenticated));
    assert st == RunOut([Rotation(Spending(Token(0, 0), refused)), Change(Changing(Sent))]);
    st := FairThen(st, Run(0));
  }

  lemma FirstChangeRefused() returns (st: State)
    ensures FairlyReached(st) && st == RunOut(Minding(Change(Changed(false))))
  {
    st := RotationRefused();
    st := FairThen(st, Reply(1, Refused(Forbidden)));
    assert st == RunOut(Minding(Change(Changing(Answered(Refused(Forbidden))))));
    st := FairThen(st, Run(1));
  }
}
