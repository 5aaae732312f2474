/** What the promises of the token source settle with, and what each of them means. */
module TokensOutcomes {
  import opened Common
  import opened Tokens
  import opened TokensSafety
  import opened TokensCoherence

  // -------------------------------------------------------------- rotations

  /** The token a rotation under way has spent. */
  function Spent(task: Task): Option<Token> {
    match task
    case Rotation(Spending(previous, _)) => Some(previous)
    case Rotation(BehindChange(previous, _, _)) => Some(previous)
    case _ => None
  }

  /** Waking rotation `i` settles it, with `ok`. */
  ghost predicate SettlesRotation(st: State, i: nat, ok: bool) {
    i < |st.client.tasks| && Woken(st.client, i) && Resume(st.client, i).tasks[i] == Rotation(Rotated(ok))
  }

  /** Against any server, a renewal rejects only with nothing to show for it: the token
      held is still the one it spent, and no pair was kept or reported. */
  lemma RejectsEmptyHanded(events: seq<Event>, i: nat)
    requires SettlesRotation(After(events), i, false)
    ensures var (c, d) := (After(events).client, Resume(After(events).client, i));
            Spent(c.tasks[i]) == Some(c.held) && d.held == c.held && d.reported == c.reported
  {
  }

  /** And it resolves only with a new pair held: one it just kept, one that came while it
      was out, or one the change it waited for brought. */
  lemma ResolvesWithAPair(events: seq<Event>, i: nat)
    requires SettlesRotation(After(events), i, true)
    ensures var (c, d) := (After(events).client, Resume(After(events).client, i));
            && Spent(c.tasks[i]).Some?
            && (|| (d.reported == c.reported + [d.held] && c.tasks[i] == Rotation(Spending(c.held, Answered(Granted(d.held)))))
                || (d.held == c.held != Spent(c.tasks[i]).value && d.reported == c.reported)
                || (d.held == c.held && d.reported == c.reported && WaitedForAPair(c, i)))
  {
  }

  /** The change a rotation waits for is over, and brought a pair. */
  predicate WaitedForAPair(c: Client, i: nat) {
    && i < |c.tasks| && MindsChange(c.tasks[i]) && c.tasks[i].rotation.change < |c.tasks|
    && c.tasks[c.tasks[i].rotation.change] == Change(Changed(true))
  }

  /** The pair the change brought is the very one the rotation spent: `#changing` still
      held that change, long over, when the rotation was refused. */
  predicate Lingers(c: Client, i: nat) { WaitedForAPair(c, i) && c.tasks[i].rotation.previous == c.held }

  /** In a fair run a renewal resolves exactly when the token held just after is not the
      one it spent, or the change it waited for lingered. */
  lemma ResolvesExactlyWhen(events: seq<Event>, i: nat, ok: bool)
    requires FairRun(events) && SettlesRotation(After(events), i, ok)
    ensures var (c, d) := (After(events).client, Resume(After(events).client, i));
            Spent(c.tasks[i]).Some? && (ok <==> d.held != Spent(c.tasks[i]).value || Lingers(c, i))
  {
    var st := After(events);
    assert Honest(st.client, st.server, st.client.tasks[i]) by { AlwaysCoherent(events); }
    HonestlyResolves(st.client, st.server, i, ok);
  }

  lemma HonestlyResolves(c: Client, s: Server, i: nat, ok: bool)
    requires SettlesRotation(State(c, s), i, ok) && Honest(c, s, c.tasks[i])
    ensures Spent(c.tasks[i]).Some? && (ok <==> Resume(c, i).held != Spent(c.tasks[i]).value || Lingers(c, i))
  {
  }

  // ---------------------------------------------------- when nothing lingers

  /** A refusal is heard only when a change that is over has been cleared from `#changing`,
      as promise callbacks see to before any answer is heard. */
  ghost predicate Prompt(st: State, e: Event) {
    var c := st.client;
    e.Run? && e.task < |c.tasks| && c.tasks[e.task].Rotation? && c.tasks[e.task].rotation.Spending? ==>
      c.changing.None? || !Past(c, c.changing)
  }

  ghost predicate PromptRun(events: seq<Event>) {
    forall k {:trigger events[k]} :: 0 <= k < |events| && Enabled(After(events[..k]), events[k])
      ==> Prompt(After(events[..k]), events[k])
  }

  lemma PromptPrefix(events: seq<Event>, n: nat)
    requires PromptRun(events) && n <= |events|
    ensures PromptRun(events[..n])
  {
    assert forall k :: 0 <= k < n ==> events[..n][k] == events[k] && events[..n][..k] == events[..k];
  }

  lemma RunLeavesNothing(c: Client, s: Server, j: nat, i: nat)
    requires Inv(c) && Coherent(c, s) && j < |c.tasks| && Woken(c, j) && Prompt(State(c, s), Run(j))
    requires Lingers(Resume(c, j), i)
    ensures Lingers(c, i)
  {
    var d := Resume(c, j);
    if !c.tasks[j].Renewal? {
      ResumeMovesOne(c, j);
    }
    if i < |c.tasks| {
      assert Honest(c, s, c.tasks[i]);
    }
  }

  lemma StepLeavesNothing(st: State, e: Event, i: nat)
    requires Inv(st.client) && Coherent(st.client, st.server) && Enabled(st, e) && Prompt(st, e)
    requires !Lingers(st.client, i)
    ensures !Lingers(Next(st, e).client, i)
  {
    if e.Run? {
      if Lingers(Next(st, e).client, i) {
        RunLeavesNothing(st.client, st.server, e.task, i);
      }
    } else {
      OtherLeavesNothing(st, e, i);
    }
  }

  lemma OtherLeavesNothing(st: State, e: Event, i: nat)
    requires Shaped(st.client) && Enabled(st, e) && !e.Run? && !Lingers(st.client, i)
    ensures !Lingers(Next(st, e).client, i)
  {
  }

  lemma FairStepLeavesNothing(events: seq<Event>, e: Event, i: nat)
    requires FairRun(events) && Enabled(After(events), e) && Prompt(After(events), e) && !Lingers(After(events).client, i)
    ensures !Lingers(Next(After(events), e).client, i)
  {
    AlwaysCoherent(events);
    Always(events);
    StepLeavesNothing(After(events), e, i);
  }

  lemma {:induction false} NothingLingers(events: seq<Event>, i: nat)
    requires FairRun(events) && PromptRun(events)
    ensures !Lingers(After(events).client, i)
  {
    if events != [] {
      var n := |events| - 1;
      FairPrefix(events, n);
      PromptPrefix(events, n);
      NothingLingers(events[..n], i);
      if Enabled(After(events[..n]), events[n]) {
        FairStepLeavesNothing(events[..n], events[n], i);
      }
    }
  }

  /** So, with promise callbacks on time, a renewal resolves exactly when the token held
      just after is not the one it spent. */
  lemma PromptlyResolvesExactlyWhen(events: seq<Event>, i: nat, ok: bool)
    requires FairRun(events) && PromptRun(events) && SettlesRotation(After(events), i, ok)
    ensures var (c, d) := (After(events).client, Resume(After(events).client, i));
            Spent(c.tasks[i]).Some? && (ok <==> d.held != Spent(c.tasks[i]).value)
  {
    ResolvesExactlyWhen(events, i, ok);
    NothingLingers(events, i);
  }

  // ----------------------------------------------------- what promptness is for

  /** The two changes of the run below, the renewal between them, and what follows. */
  function Told(held: Token, refreshing: Option<nat>, changing: nat, tasks: seq<Task>, reported: seq<Token>): State {
    State(Client(held, refreshing, Some(changing), None, tasks, [], reported), Server(held, true, 0))
  }

  lemma FirstFailed() returns (st: State)
    ensures FairlyReached(st)
    ensures st == Told(Token(0, 0), None, 0, [Change(Changed(false)), Renewal(BehindPair(0))], [])
  {
    st := StartsFairly();
    st := FairThen(st, CallReplace);
    st := FairThen(st, CallRenew);
    assert st == Told(Token(0, 0), None, 0, [Change(Changing(Sent)), Renewal(BehindPair(0))], []);
    st := FairThen(st, Reply(0, Refused(Forbidden)));
    assert st.client.tasks == [Change(Changing(Answered(Refused(Forbidden)))), Renewal(BehindPair(0))];
    st := FairThen(st, Run(0));
  }

  lemma SecondBegun() returns (st: State)
    ensures FairlyReached(st)
    ensures st == Told(Token(0, 0), None, 2, [Change(Changed(false)), Renewal(BehindPair(0)), Change(Changing(Sent))], [])
  {
    st := FirstFailed();
    st := FairThen(st, CallReplace);
  }

  lemma SecondBrought() returns (st: State)
    ensures FairlyReached(st)
    ensures st == Told(Token(1, 0), None, 2, [Change(Changed(false)), Renewal(BehindPair(0)), Change(Changed(true))], [Token(1, 0)])
  {
    st := SecondTaken();
    st := FairThen(st, Run(2));
  }

  lemma SecondTaken() returns (st: State)
    ensures FairlyReached(st)
    ensures var tasks := [Change(Changed(false)), Renewal(BehindPair(0)), Change(Changing(Answered(Granted(Token(1, 0)))))];
            st == Told(Token(0, 0), None, 2, tasks, []).(server := Server(Token(1, 0), true, 0))
  {
    st := SecondBegun();
    var pair := Granted(Token(1, 0));
    assert Serve(st.server, st.client.tasks[2]) == (Server(Token(1, 0), true, 0), pair);
    assert WithAnswer(st.client.tasks[2], pair) == Change(Changing(Answered(pair)));
    st := FairThen(st, Take(2));
  }

  function Followed(rotation: RotationPhase): seq<Task> {
    [Change(Changed(false)), Renewal(Following(3)), Change(Changed(true)), Rotation(rotation)]
  }

  lemma Rotating() returns (st: State)
    ensures FairlyReached(st)
    ensures st == Told(Token(1, 0), Some(3), 2, Followed(Spending(Token(1, 0), Sent)), [Token(1, 0)])
  {
    st := SecondBrought();
    st := FairThen(st, Run(1));
  }

  lemma RotationLost() returns (st: State)
    ensures FairlyReached(st)
    ensures st == Told(Token(1, 0), Some(3), 2, Followed(Spending(Token(1, 0), Answered(Refused(Other)))), [Token(1, 0)])
  {
    st := Rotating();
    st := FairThen(st, Reply(3, Refused(Other)));
  }

  lemma LeftWaiting() returns (st: State)
    ensures FairlyReached(st)
    ensures st == Told(Token(1, 0), Some(3), 2, Followed(BehindChange(Token(1, 0), Other, 2)), [Token(1, 0)])
  {
    st := RotationLost();
    st := FairThen(st, Run(3));
  }

  /** If `#changing` were left holding a change that is over, a renewal could resolve with
      nothing renewed: its network failure is taken for the change's doing. */
  lemma LateCallbackResolves() returns (st: State)
    ensures FairlyReached(st) && SettlesRotation(st, 3, true)
    ensures Lingers(st.client, 3) && Resume(st.client, 3).held == Spent(st.client.tasks[3]).value
  {
    st := LeftWaiting();
  }

  // ------------------------------------------ renewals behind a change, asks, changes

  /** A renewal behind a change resolves with the change's pair, or settles as the
      rotation it went on to make, or joined, did. */
  lemma RenewalSettles(events: seq<Event>, i: nat, ok: bool)
    requires i < |After(events).client.tasks| && Woken(After(events).client, i)
    requires Resume(After(events).client, i).tasks[i] == Renewal(Renewed(ok))
    ensures var c := After(events).client;
            && Resume(c, i) == c.(tasks := c.tasks[i := Renewal(Renewed(ok))])
            && match c.tasks[i].renewal
               case BehindPair(x) => ok && x < |c.tasks| && c.tasks[x] == Change(Changed(true))
               case Following(r) => r < |c.tasks| && c.tasks[r] == Rotation(Rotated(ok))
               case Renewed(_) => false
  {
    assert OneRotation(After(events).client) by { Always(events); }
  }

  /** It makes one, and follows it, exactly when the change brought nothing. */
  lemma RenewalGoesOn(events: seq<Event>, i: nat, x: nat)
    requires var c := After(events).client; i < |c.tasks| && c.tasks[i] == Renewal(BehindPair(x)) && Woken(c, i)
    ensures var (c, d) := (After(events).client, Resume(After(events).client, i));
            && x < |c.tasks| && c.tasks[x].Change? && c.tasks[x].change.Changed?
            && i < |d.tasks|
            && (!c.tasks[x].change.brought <==> d.tasks[i].renewal.Following?)
            && (d.tasks[i].renewal.Following? ==> d.refreshing == Some(d.tasks[i].renewal.rotation))
  {
    Always(events);
  }

  /** A change settles with a pair exactly when its answer was one, and then that pair is
      held and reported; without one nothing held or reported changes. */
  lemma ChangeSettles(events: seq<Event>, i: nat)
    requires var c := After(events).client; i < |c.tasks| && c.tasks[i].Change? && Woken(c, i)
    ensures var (c, d) := (After(events).client, Resume(After(events).client, i));
            var answer := c.tasks[i].change.wire.answer;
            && |d.tasks| == |c.tasks| && d.tasks[i] == Change(Changed(answer.Granted?))
            && (if answer.Granted? then d.held == answer.token && d.reported == c.reported + [answer.token]
                else d.held == c.held && d.reported == c.reported)
  {
  }

  /** An ask settles with the answer it got, and changes nothing else. */
  lemma AskSettles(events: seq<Event>, i: nat, answer: Answer)
    requires var c := After(events).client; i < |c.tasks| && c.tasks[i].Ask? && Woken(c, i)
    requires Resume(After(events).client, i).tasks[i] == Ask(Asked(answer))
    ensures var c := After(events).client;
            && c.tasks[i].ask.Asking? && c.tasks[i].ask.wire == Answered(answer)
            && Resume(c, i) == c.(tasks := c.tasks[i := Ask(Asked(answer))])
  {
  }

  /** In a fair run with no change under way, the server grants an ask of the standing
      family exactly when the sign-in is alive. */
  lemma AskIsGrantedExactlyWhen(events: seq<Event>, i: nat)
    requires FairRun(events) && Waits(After(events).client, i) && After(events).client.tasks[i].Ask?
    requires !ChangeUnderWay(After(events).client)
    ensures var (st, token) := (After(events), After(events).client.tasks[i].ask.token);
            Serve(st.server, st.client.tasks[i]).1.Granted? <==> st.server.alive && token.family == st.server.current.family
  {
    PresentsTheCurrentToken(events, i);
  }

  // ---------------------------------------------------------------- what is sent

  /** Nothing new is sent while a change is out: a renewal waits for its pair. */
  lemma RenewSendsNothingDuringAChange(c: Client, j: nat)
    requires c.changing.Some? && Waits(Renew(c), j)
    ensures Waits(c, j)
    ensures c.refreshing.None? ==> Renew(c) == c.(tasks := c.tasks + [Renewal(BehindPair(c.changing.value))])
  {
  }

  /** With no rotation, change or ask out, it sends the held token at once. */
  lemma RenewSendsAtOnce(c: Client)
    requires c.refreshing.None? && c.changing.None? && c.asking.None?
    ensures Renew(c).tasks == c.tasks + [Rotation(Spending(c.held, Sent))] && Renew(c).refreshing == Some(|c.tasks|)
  {
  }

  /** An ask sends the held token, and only after the change that was out when it had
      waited for the rest is over. */
  lemma AskWaitsForTheChange(events: seq<Event>, i: nat)
    requires var c := After(events).client; i < |c.tasks| && c.tasks[i].Ask? && Woken(c, i)
    ensures var (c, d) := (After(events).client, Resume(After(events).client, i));
            && |d.tasks| == |c.tasks| && d.tasks[i].Ask?
            && (d.tasks[i].ask.BehindReplace? <==> c.tasks[i].ask.BehindRotation?)
            && (d.tasks[i].ask.BehindReplace? ==> d.tasks[i].ask.change == c.changing)
            && (d.tasks[i].ask.Asking? ==>
                  d.tasks[i].ask == Asking(c.held, Sent) && c.tasks[i].ask.BehindReplace? && Past(c, c.tasks[i].ask.change))
  {
  }

  /** Whatever is held has been reported, last: what was saved is what is held. */
  lemma {:induction false} HeldIsReported(events: seq<Event>)
    ensures var c := After(events).client;
            if c.reported == [] then c.held == Start().client.held else c.held == c.reported[|c.reported| - 1]
  {
    if events != [] {
      HeldIsReported(events[..|events| - 1]);
    }
  }
}
