/**
 `RotatingTokens` itself: the object whose fields every call and every stretch
 after an await updates in place. Its ghost `trace` is the run of the protocol in
 `Tokens` it has been through, and every method adds one event to it, so what is
 proved of all runs holds of the object: `Exclusive` and `SignOutIsEarned` say it.
 */
module TokenSource {
  import opened Common
  import opened Tokens
  import opened TokensSafety
  import opened TokensCoherence

  /** An enabled event takes a run one step further. */
  lemma OneMore(trace: seq<Event>, e: Event)
    requires Enabled(After(trace), e)
    ensures After(trace + [e]) == Next(After(trace), e)
  {
    assert (trace + [e])[..|trace|] == trace;
  }

  class RotatingTokens {
    var tokens: Token
    var refreshing: Option<nat>
    var changing: Option<nat>
    var asking: Option<nat>
    /** Every asynchronous body started so far, at the await it is stopped at. */
    var tasks: seq<Task>
    /** The tokens `onSignedOut` was called over. */
    var signedOut: seq<Token>
    /** The tokens `onTokens` was called with. */
    var reported: seq<Token>
    /** What happened so far, here and at the server. */
    ghost var trace: seq<Event>

    ghost function View(): Client
      reads this
    {
      Client(tokens, refreshing, changing, asking, tasks, signedOut, reported)
    }

    ghost predicate Valid()
      reads this
    {
      View() == After(trace).client
    }

    /** Whatever was called and answered so far: one refresh at most is in flight,
        never beside an ask, and one ask at most. */
    lemma Exclusive(i: nat, j: nat)
      requires Valid()
      ensures RefreshInFlight(View(), i) && RefreshInFlight(View(), j) ==> i == j
      ensures !(RefreshInFlight(View(), i) && AskInFlight(View(), j))
      ensures AskInFlight(View(), i) && AskInFlight(View(), j) ==> i == j
    {
      MutualExclusion(trace, i, j);
    }

    /** And, with a fair server and one password change at a time, the held token is
        the server's once nothing is out, and it was never taken for a replay. */
    lemma HeldIsTheServers()
      requires Valid() && FairRun(trace)
      requires forall i :: 0 <= i < |tasks| ==> Settled(tasks[i])
      ensures tokens == After(trace).server.current && After(trace).server.replays == 0
    {
      HeldIsCurrent(trace);
    }

    constructor ()
      ensures Valid() && trace == []
    {
      tokens := Token(0, 0);
      refreshing, changing, asking := None, None, None;
      tasks, signedOut, reported, trace := [], [], [], [];
    }

    // -------------------------------------------------------------- the calls

    /** Join the rotation out, wait for the change out, or rotate. */
    method Renew() returns (promise: nat)
      requires Valid()
      modifies this
      ensures Valid() && trace == old(trace) + [CallRenew]
      ensures promise < |tasks| && (old(refreshing).Some? ==> promise == old(refreshing).value)
      ensures old(refreshing).None? ==> promise == |old(tasks)|
    {
      Always(trace);
      OneMore(trace, CallRenew);
      trace := trace + [CallRenew];
      if refreshing.Some? {
        return refreshing.value;
      }
      if changing.Some? {
        promise := |tasks|;
        tasks := tasks + [Renewal(BehindPair(changing.value))];
        return;
      }
      promise := Rotate();
    }

    method Rotate() returns (promise: nat)
      requires refreshing.Some? ==> refreshing.value < |tasks|
      modifies this`tasks, this`refreshing
      ensures View() == Tokens.Rotate(old(View()))
      ensures refreshing == Some(promise) && promise < |tasks|
      ensures old(refreshing).None? ==> promise == |old(tasks)|
    {
      if refreshing.Some? {
        return refreshing.value;
      }
      promise := |tasks|;
      if asking.Some? {
        tasks := tasks + [Rotation(BehindAsk(asking.value))];
      } else {
        var previous := tokens;
        tasks := tasks + [Rotation(Spending(previous, Sent))];
      }
      refreshing := Some(promise);
    }

    method Replace() returns (promise: nat)
      requires Valid()
      modifies this
      ensures Valid() && trace == old(trace) + [CallReplace]
      ensures changing == Some(promise) && promise == |old(tasks)|
    {
      OneMore(trace, CallReplace);
      trace := trace + [CallReplace];
      promise := |tasks|;
      tasks := tasks + [Change(Changing(Sent))];
      changing := Some(promise);
    }

    method ShareSignIn() returns (promise: nat)
      requires Valid()
      modifies this
      ensures Valid() && trace == old(trace) + [CallShareSignIn]
      ensures asking == Some(promise) && promise == |old(tasks)|
    {
      OneMore(trace, CallShareSignIn);
      trace := trace + [CallShareSignIn];
      var before := asking;
      var rotating := refreshing;
      promise := |tasks|;
      tasks := tasks + [Ask(BehindAsks(before, rotating))];
      asking := Some(promise);
    }

    // ---------------------------------------------------------- the callbacks

    /** Ask `promise` has settled: its field is cleared, unless a newer ask has it. */
    method AskSettled(promise: nat)
      requires Valid() && promise < |tasks| && tasks[promise].Ask? && Settled(tasks[promise])
      modifies this`asking, this`trace
      ensures Valid() && asking != Some(promise)
      ensures trace == if old(asking) == Some(promise) then old(trace) + [ClearAsking] else old(trace)
    {
      if asking == Some(promise) {
        OneMore(trace, ClearAsking);
        trace := trace + [ClearAsking];
        asking := None;
      }
    }

    /** Change `promise` has settled: its field is cleared, unless a newer change has it. */
    method ChangeSettled(promise: nat)
      requires Valid() && promise < |tasks| && tasks[promise].Change? && Settled(tasks[promise])
      modifies this`changing, this`trace
      ensures Valid() && changing != Some(promise)
      ensures trace == if old(changing) == Some(promise) then old(trace) + [ClearChanging] else old(trace)
    {
      if changing == Some(promise) {
        OneMore(trace, ClearChanging);
        trace := trace + [ClearChanging];
        changing := None;
      }
    }

    /** Request `i` comes back, or fails: `e` is what the network and the server did. */
    method RequestOver(i: nat, answer: Answer, ghost e: Event)
      requires Valid() && (e.Take? || e.TakeQuietly? || e.Reply? || e.Lose?) && e.task == i
      requires Enabled(After(trace), e) && Next(After(trace), e).client.tasks[i] == WithAnswer(tasks[i], answer)
      modifies this`tasks, this`trace
      ensures Valid() && trace == old(trace) + [e]
    {
      OneMore(trace, e);
      trace := trace + [e];
      tasks := tasks[i := WithAnswer(tasks[i], answer)];
    }

    /** The sign-in runs out at the server; nothing changes here. */
    ghost method RunsOut()
      requires Valid()
      modifies this`trace
      ensures Valid() && trace == old(trace) + [Expire]
    {
      OneMore(trace, Expire);
      trace := trace + [Expire];
    }

    // ------------------------------------------------ the stretches after awaits

    /** Wake `#rotate`'s attempt `i`. It signs out over the token held, if at all. */
    method ContinueRotation(i: nat)
      requires Valid() && i < |tasks| && Woken(View(), i) && tasks[i].Rotation?
      modifies this
      ensures Valid() && trace == old(trace) + [Run(i)]
      ensures signedOut == old(signedOut) || (signedOut == old(signedOut) + [old(tokens)] && tokens == old(tokens))
    {
      Always(trace);
      OneMore(trace, Run(i));
      trace := trace + [Run(i)];
      match tasks[i].rotation {
        case BehindAsk(_) =>
          var previous := tokens;
          tasks := tasks[i := Rotation(Spending(previous, Sent))];
        case Spending(previous, Answered(answer)) =>
          if answer.Granted? {
            if tokens == previous {
              tokens := answer.token;
              reported := reported + [answer.token];
            }
            refreshing := None;
            tasks := tasks[i := Rotation(Rotated(true))];
          } else {
            var code := if answer.Refused? then answer.code else Other;
            if changing.Some? {
              tasks := tasks[i := Rotation(BehindChange(previous, code, changing.value))];
            } else {
              FailRotation(i, previous, code);
            }
          }
        case BehindChange(previous, code, x) =>
          if tasks[x].change.brought {
            refreshing := None;
            tasks := tasks[i := Rotation(Rotated(true))];
          } else {
            FailRotation(i, previous, code);
          }
      }
    }

    /** In a run with a fair server and one change at a time, waking a rotation signs out
        wrongly exactly when a later change is under way than the one it waited for. */
    lemma SignOutIsEarned(i: nat)
      requires Valid() && FairRun(trace) && i < |tasks| && Woken(View(), i) && Resume(View(), i).signedOut != signedOut
      ensures After(trace).server.alive || ChangeUnderWay(View()) <==> TooSoon(View(), i)
    {
      NoFalseSignOut(trace, Run(i));
    }

    method FailRotation(i: nat, previous: Token, code: Code)
      requires i < |tasks|
      modifies this`signedOut, this`refreshing, this`tasks
      ensures View() == Conclude(old(View()), i, previous, code)
    {
      var ok := tokens != previous;
      if !ok && (code == Unauthenticated || code == Forbidden) {
        signedOut := signedOut + [previous];
      }
      refreshing := None;
      tasks := tasks[i := Rotation(Rotated(ok))];
    }

    /** Wake `shareSignIn`'s body `i`. */
    method ContinueAsk(i: nat)
      requires Valid() && i < |tasks| && Woken(View(), i) && tasks[i].Ask?
      modifies this`tasks, this`trace
      ensures Valid() && trace == old(trace) + [Run(i)]
    {
      OneMore(trace, Run(i));
      trace := trace + [Run(i)];
      match tasks[i].ask {
        case BehindAsks(_, rotating) => tasks := tasks[i := Ask(BehindRotation(rotating))];
        case BehindRotation(_) => tasks := tasks[i := Ask(BehindReplace(changing))];
        case BehindReplace(_) => tasks := tasks[i := Ask(Asking(tokens, Sent))];
        case Asking(_, wire) => tasks := tasks[i := Ask(Asked(wire.answer))];
      }
    }

    /** Wake `replace`'s body `i`. */
    method ContinueChange(i: nat)
      requires Valid() && i < |tasks| && Woken(View(), i) && tasks[i].Change?
      modifies this`tokens, this`tasks, this`reported, this`trace
      ensures Valid() && trace == old(trace) + [Run(i)]
    {
      OneMore(trace, Run(i));
      trace := trace + [Run(i)];
      var answer := tasks[i].change.wire.answer;
      if answer.Granted? {
        tokens := answer.token;
        reported := reported + [answer.token];
      }
      tasks := tasks[i := Change(Changed(answer.Granted?))];
    }

    /** Wake the promise `renew` handed back while a change was out. */
    method ContinueRenewal(i: nat)
      requires Valid() && i < |tasks| && Woken(View(), i) && tasks[i].Renewal?
      modifies this`tasks, this`refreshing, this`trace
      ensures Valid() && trace == old(trace) + [Run(i)]
    {
      Always(trace);
      OneMore(trace, Run(i));
      trace := trace + [Run(i)];
      match tasks[i].renewal {
        case BehindPair(x) =>
          if tasks[x].change.brought {
            tasks := tasks[i := Renewal(Renewed(true))];
          } else {
            var rotation := Rotate();
            tasks := tasks[i := Renewal(Following(rotation))];
          }
        case Following(r) => tasks := tasks[i := Renewal(Renewed(tasks[r].rotation.ok))];
      }
    }
  }
}
