/**
 The owner window's token source (`RotatingTokens`, client/src/lib/api.ts).

 Each call that starts an asynchronous piece of work appends a *task*: its
 index is the identity of the promise handed back, and creation order is index
 order. A task's phase is the `await` it is stopped at. One event is one
 stretch of code between two awaits, one answer from the server, or one of the
 callbacks that clear a field, so a sequence of events is one interleaving.
 */
module Tokens {
  import opened Common

  /** A refresh token: its family, and how many rotations led to it. The access
      token and the expiry that travel with it play no part in the protocol. */
  datatype Token = Token(family: nat, serial: nat)

  datatype Code = Unauthenticated | Forbidden | Other

  /** What a request brings back. `Nothing` is an older server's empty 204. */
  datatype Answer = Granted(token: Token) | Nothing | Refused(code: Code)

  datatype Wire = Sent | Answered(answer: Answer)

  /** `#rotate`'s attempt, by the await it is stopped at. */
  datatype RotationPhase =
    | BehindAsk(ask: nat)
    | Spending(previous: Token, wire: Wire)
    | BehindChange(previous: Token, code: Code, change: nat)
    | Rotated(ok: bool)

  /** `shareSignIn`'s body: three awaits, then the request itself. */
  datatype AskPhase =
    | BehindAsks(before: Option<nat>, refreshing: Option<nat>)
    | BehindRotation(refreshing: Option<nat>)
    | BehindReplace(change: Option<nat>)
    | Asking(token: Token, wire: Wire)
    | Asked(answer: Answer)

  /** `replace`: the request, then whether it brought a pair. */
  datatype ChangePhase = Changing(wire: Wire) | Changed(brought: bool)

  /** The promise `renew` hands back while a password change is out: `ok` unless it rejects. */
  datatype RenewalPhase = BehindPair(change: nat) | Following(rotation: nat) | Renewed(ok: bool)

  datatype Task =
    | Rotation(rotation: RotationPhase)
    | Ask(ask: AskPhase)
    | Change(change: ChangePhase)
    | Renewal(renewal: RenewalPhase)

  predicate Settled(task: Task) {
    match task
    case Rotation(phase) => phase.Rotated?
    case Ask(phase) => phase.Asked?
    case Change(phase) => phase.Changed?
    case Renewal(phase) => phase.Renewed?
  }

  /** The fields of `RotatingTokens`, its outstanding work, the tokens `onSignedOut`
      was called over, and those `onTokens` was called with. */
  datatype Client = Client(
    held: Token,
    refreshing: Option<nat>,
    changing: Option<nat>,
    asking: Option<nat>,
    tasks: seq<Task>,
    signedOut: seq<Token>,
    reported: seq<Token>)

  predicate Past(c: Client, promise: Option<nat>) {
    promise.None? || (promise.value < |c.tasks| && Settled(c.tasks[promise.value]))
  }

  // ---------------------------------------------------------------- the calls

  function Rotate(c: Client): Client {
    if c.refreshing.Some? then c
    else
      var phase := if c.asking.Some? then BehindAsk(c.asking.value) else Spending(c.held, Sent);
      c.(tasks := c.tasks + [Rotation(phase)], refreshing := Some(|c.tasks|))
  }

  function Renew(c: Client): Client {
    if c.refreshing.Some? then c
    else if c.changing.Some? then c.(tasks := c.tasks + [Renewal(BehindPair(c.changing.value))])
    else Rotate(c)
  }

  function Replace(c: Client): Client {
    c.(tasks := c.tasks + [Change(Changing(Sent))], changing := Some(|c.tasks|))
  }

  function ShareSignIn(c: Client): Client {
    c.(tasks := c.tasks + [Ask(BehindAsks(c.asking, c.refreshing))], asking := Some(|c.tasks|))
  }

  // ------------------------------------------------ the stretches after awaits

  /** Keep a new pair, and report it. */
  function Hold(c: Client, pair: Token): Client { c.(held := pair, reported := c.reported + [pair]) }

  function SettleRotation(c: Client, i: nat, ok: bool): Client
    requires i < |c.tasks|
  {
    c.(tasks := c.tasks[i := Rotation(Rotated(ok))], refreshing := None)
  }

  /** The end of `#rotate`'s catch block, once no change brought a pair. */
  function Conclude(c: Client, i: nat, previous: Token, code: Code): Client
    requires i < |c.tasks|
  {
    if c.held != previous then SettleRotation(c, i, true)
    else if code != Other then SettleRotation(c.(signedOut := c.signedOut + [previous]), i, false)
    else SettleRotation(c, i, false)
  }

  /** Whether task `i` has something to wake up for. */
  predicate Woken(c: Client, i: nat)
    requires i < |c.tasks|
  {
    match c.tasks[i]
    case Rotation(BehindAsk(a)) => Past(c, Some(a))
    case Rotation(Spending(_, wire)) => wire.Answered?
    case Rotation(BehindChange(_, _, x)) => Past(c, Some(x)) && c.tasks[x].Change?
    case Ask(BehindAsks(before, _)) => Past(c, before)
    case Ask(BehindRotation(r)) => Past(c, r)
    case Ask(BehindReplace(x)) => Past(c, x)
    case Ask(Asking(_, wire)) => wire.Answered?
    case Change(Changing(wire)) => wire.Answered?
    case Renewal(BehindPair(x)) => Past(c, Some(x)) && c.tasks[x].Change?
    case Renewal(Following(r)) => Past(c, Some(r)) && c.tasks[r].Rotation?
    case _ => false
  }

  /** Run task `i` from the await it is stopped at to the next one. */
  function Resume(c: Client, i: nat): Client
    requires i < |c.tasks| && Woken(c, i)
  {
    match c.tasks[i]
    case Rotation(BehindAsk(_)) => c.(tasks := c.tasks[i := Rotation(Spending(c.held, Sent))])
    case Rotation(Spending(previous, Answered(Granted(pair)))) =>
      if c.held != previous then SettleRotation(c, i, true)
      else SettleRotation(Hold(c, pair), i, true)
    case Rotation(Spending(previous, Answered(answer))) =>
      var code := if answer.Refused? then answer.code else Other;
      if c.changing.Some?
      then c.(tasks := c.tasks[i := Rotation(BehindChange(previous, code, c.changing.value))])
      else Conclude(c, i, previous, code)
    case Rotation(BehindChange(previous, code, x)) =>
      if c.tasks[x].change.brought then SettleRotation(c, i, true) else Conclude(c, i, previous, code)
    case Ask(BehindAsks(_, refreshing)) => c.(tasks := c.tasks[i := Ask(BehindRotation(refreshing))])
    case Ask(BehindRotation(_)) => c.(tasks := c.tasks[i := Ask(BehindReplace(c.changing))])
    case Ask(BehindReplace(_)) => c.(tasks := c.tasks[i := Ask(Asking(c.held, Sent))])
    case Ask(Asking(_, Answered(answer))) => c.(tasks := c.tasks[i := Ask(Asked(answer))])
    case Change(Changing(Answered(Granted(pair)))) =>
      Hold(c, pair).(tasks := c.tasks[i := Change(Changed(true))])
    case Change(_) => c.(tasks := c.tasks[i := Change(Changed(false))])
    case Renewal(BehindPair(x)) =>
      if c.tasks[x].change.brought then c.(tasks := c.tasks[i := Renewal(Renewed(true))])
      else
        var rotating := Rotate(c);
        rotating.(tasks := rotating.tasks[i := Renewal(Following(rotating.refreshing.value))])
    case Renewal(Following(r)) => c.(tasks := c.tasks[i := Renewal(Renewed(c.tasks[r].rotation.ok))])
  }

  // ---------------------------------------------------------------- the server

  /** The account's sign-in as the server has it (PROTOCOL section 2): the newest
      family, its one unspent token, whether the family still stands, and how
      often a spent token of that family was presented. */
  datatype Server = Server(current: Token, alive: bool, replays: nat)

  /** Prove or spend `token`: a spent one of the newest family is a replay. */
  function Present(s: Server, token: Token): Server {
    if token == s.current || token.family != s.current.family then s
    else s.(alive := false, replays := s.replays + 1)
  }

  predicate Accepts(s: Server, token: Token) { s.alive && token == s.current }

  function OnWire(task: Task): Option<Wire> {
    match task
    case Rotation(Spending(_, wire)) => Some(wire)
    case Ask(Asking(_, wire)) => Some(wire)
    case Change(Changing(wire)) => Some(wire)
    case _ => None
  }

  function WithAnswer(task: Task, answer: Answer): Task {
    match task
    case Rotation(Spending(previous, _)) => Rotation(Spending(previous, Answered(answer)))
    case Ask(Asking(token, _)) => Ask(Asking(token, Answered(answer)))
    case Change(Changing(_)) => Change(Changing(Answered(answer)))
    case _ => task
  }

  /** What the server makes of a request, and the answer it sends. */
  function Serve(s: Server, task: Task): (Server, Answer)
    requires OnWire(task).Some?
  {
    match task
    case Rotation(phase) =>
      if Accepts(s, phase.previous)
      then var pair := Token(s.current.family, s.current.serial + 1); (s.(current := pair), Granted(pair))
      else (Present(s, phase.previous), Refused(Unauthenticated))
    case Ask(phase) =>
      (Present(s, phase.token), if Accepts(s, phase.token) then Granted(Token(0, 0)) else Refused(Unauthenticated))
    case _ =>
      var pair := Token(s.current.family + 1, 0);
      (s.(current := pair, alive := true), Granted(pair))
  }

  // ------------------------------------------------------------------ the runs

  datatype State = State(client: Client, server: Server)

  datatype Event =
    | CallRenew
    | CallReplace
    | CallShareSignIn
    | Run(task: nat)
    | ClearAsking
    | ClearChanging
    | Take(task: nat)                   // the server takes a request and answers it
    | TakeQuietly(task: nat)            // an older server takes a change: an empty answer
    | Reply(task: nat, answer: Answer)  // any answer at all, nothing taken
    | Lose(task: nat)                   // an answer is lost on its way back
    | Expire                            // the sign-in runs out at the server

  predicate Waits(c: Client, i: nat) { i < |c.tasks| && OnWire(c.tasks[i]) == Some(Sent) }

  predicate Enabled(st: State, e: Event) {
    var c := st.client;
    match e
    case CallRenew => true
    case CallReplace => true
    case CallShareSignIn => true
    case Run(i) => i < |c.tasks| && Woken(c, i)
    case ClearAsking => c.asking.Some? && Past(c, c.asking)
    case ClearChanging => c.changing.Some? && Past(c, c.changing)
    case Take(i) => Waits(c, i)
    case TakeQuietly(i) => Waits(c, i) && c.tasks[i].Change?
    case Reply(i, _) => Waits(c, i)
    case Lose(i) =>
      i < |c.tasks| && OnWire(c.tasks[i]).Some? && OnWire(c.tasks[i]).value.Answered?
      && OnWire(c.tasks[i]).value.answer != Refused(Other)
    case Expire => true
  }

  function WithReply(st: State, i: nat, answer: Answer): State
    requires i < |st.client.tasks|
  {
    var c := st.client;
    st.(client := c.(tasks := c.tasks[i := WithAnswer(c.tasks[i], answer)]))
  }

  function Next(st: State, e: Event): State
    requires Enabled(st, e)
  {
    var c := st.client;
    match e
    case CallRenew => st.(client := Renew(c))
    case CallReplace => st.(client := Replace(c))
    case CallShareSignIn => st.(client := ShareSignIn(c))
    case Run(i) => st.(client := Resume(c, i))
    case ClearAsking => st.(client := c.(asking := None))
    case ClearChanging => st.(client := c.(changing := None))
    case Take(i) => var (server, answer) := Serve(st.server, c.tasks[i]); WithReply(st.(server := server), i, answer)
    case TakeQuietly(i) => WithReply(st.(server := st.server.(alive := false)), i, Nothing)
    case Reply(i, answer) => WithReply(st, i, answer)
    case Lose(i) => WithReply(st, i, Refused(Other))
    case Expire => st.(server := st.server.(alive := false))
  }

  /** A fresh sign-in: nothing outstanding, and the token the server has. */
  function Start(): State {
    State(Client(Token(0, 0), None, None, None, [], [], []), Server(Token(0, 0), true, 0))
  }

  /** The state a run of events ends in. An event that isn't enabled is no step. */
  function After(events: seq<Event>): State {
    if events == [] then Start()
    else
      var before := After(events[..|events| - 1]);
      var e := events[|events| - 1];
      if Enabled(before, e) then Next(before, e) else before
  }
}
