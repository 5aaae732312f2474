/**
 The table of sign-ins two programs share on an iPhone: the app and its share
 window (client/src-tauri/src/share_window.rs).
 */
module ShareTable {
  import opened Common

  datatype Kept = Kept(token: string, savedAt: nat)

  type SignIns = map<string, Kept>

  /** One change of one server's sign-in. `readable` and `writes` say whether the
      store could be read and took the write. */
  datatype Change =
    | Save(url: string, token: string, now: nat, readable: bool, writes: bool)
    | Forget(url: string, readable: bool, writes: bool)

  /** What a program sees of the table: nothing, if it can't read it. */
  function Load(table: SignIns, readable: bool): SignIns { if readable then table else map[] }

  /** What a change leaves in the table, and the token it answers with. */
  function Apply(table: SignIns, c: Change): (SignIns, Option<string>) {
    var read := Load(table, c.readable);
    match c
    case Save(url, token, now, _, writes) =>
      var replaced := if url in read then Some(read[url].token) else None;
      if writes then (read[url := Kept(token, now)], replaced) else (table, None)
    case Forget(url, _, writes) =>
      if url !in read || !writes then (table, None) else (read - {url}, Some(read[url].token))
  }

  /** Whether the change writes the table back, and the store takes it. */
  predicate Puts(table: SignIns, c: Change) { c.writes && (c.Save? || c.url in Load(table, c.readable)) }

  // ------------------------------------------------------------------ conservation

  /** How many servers `token` is kept for. */
  function Count(table: SignIns, token: string): nat { |set url | url in table && table[url].token == token| }

  /** Tokens kept so far, and tokens handed back to be signed out. */
  datatype Ledger = Ledger(table: SignIns, kept: multiset<string>, handed: multiset<string>)

  function Enter(l: Ledger, c: Change): Ledger {
    var (table, answer) := Apply(l.table, c);
    Ledger(table,
           if c.Save? && c.writes then l.kept + multiset{c.token} else l.kept,
           if answer.Some? then l.handed + multiset{answer.value} else l.handed)
  }

  /** Every token ever kept is in the table or was handed back, as often as it was kept. */
  ghost predicate Conserved(l: Ledger) {
    forall token :: l.kept[token] == Count(l.table, token) + l.handed[token]
  }

  lemma CountInsert(table: SignIns, url: string, kept: Kept, token: string)
    ensures Count(table[url := kept], token) ==
            Count(table - {url}, token) + (if kept.token == token then 1 else 0)
  {
    CountRemove(table[url := kept], url, token);
    assert table[url := kept] - {url} == table - {url};
  }

  lemma CountRemove(table: SignIns, url: string, token: string)
    ensures Count(table, token) ==
            Count(table - {url}, token) + (if url in table && table[url].token == token then 1 else 0)
  {
    var rest := set u | u in table - {url} && (table - {url})[u].token == token;
    var all := set u | u in table && table[u].token == token;
    assert all == if url in table && table[url].token == token then rest + {url} else rest;
  }

  lemma ReadableConserves(l: Ledger, c: Change)
    requires Conserved(l) && c.readable
    ensures Conserved(Enter(l, c))
  {
    forall token ensures Enter(l, c).kept[token] == Count(Enter(l, c).table, token) + Enter(l, c).handed[token] {
      if c.Save? {
        SaveConserves(l, c, token);
      } else {
        CountRemove(l.table, c.url, token);
      }
    }
  }

  lemma SaveConserves(l: Ledger, c: Change, token: string)
    requires c.Save? && c.readable && l.kept[token] == Count(l.table, token) + l.handed[token]
    ensures var r := Enter(l, c); r.kept[token] == Count(r.table, token) + r.handed[token]
  {
    CountRemove(l.table, c.url, token);
    CountInsert(l.table, c.url, Kept(c.token, c.now), token);
  }

  lemma CountSome(table: SignIns, url: string)
    requires url in table
    ensures Count(table, table[url].token) >= 1
  {
    var all := set u | u in table && table[u].token == table[url].token;
    assert url in all;
    assert |all - {url}| < |all|;
  }

  /** One change conserves tokens except in one case: a save that couldn't read a
      table with something in it, and still wrote. */
  lemma ConservesExactlyUnless(l: Ledger, c: Change)
    requires Conserved(l)
    ensures Conserved(Enter(l, c)) <==> c.readable || c.Forget? || !c.writes || l.table == map[]
  {
    if c.readable {
      ReadableConserves(l, c);
    } else if c.Save? && c.writes {
      var r := Enter(l, c);
      assert forall token :: Count(map[], token) == 0;
      forall token ensures Count(r.table, token) == if token == c.token then 1 else 0 {
        CountInsert(map[], c.url, Kept(c.token, c.now), token);
        var none: SignIns := map[];
        assert none - {c.url} == none;
      }
      if l.table == map[] {
        assert Conserved(r);
      } else {
        var url :| url in l.table;
        CountSome(l.table, url);
        var lost := l.table[url].token;
        assert l.kept[lost] >= 1 + l.handed[lost];
        assert r.kept[lost] != Count(r.table, lost) + r.handed[lost];
      }
    } else {
      assert Enter(l, c) == l;
    }
  }

  function Run(changes: seq<Change>): Ledger {
    if changes == [] then Ledger(map[], multiset{}, multiset{})
    else Enter(Run(changes[..|changes| - 1]), changes[|changes| - 1])
  }

  /** Change `k` is a save that couldn't read a table with something in it, and wrote. */
  ghost predicate LosesAt(changes: seq<Change>, k: nat)
    requires k < |changes|
  {
    changes[k].Save? && !changes[k].readable && changes[k].writes && Run(changes[..k]).table != map[]
  }

  lemma {:induction false} ConservedUntilLost(changes: seq<Change>, k: nat)
    requires k <= |changes| && forall j: nat :: j < k ==> !LosesAt(changes, j)
    ensures Conserved(Run(changes[..k]))
    decreases k
  {
    if k == 0 {
      assert forall token :: Count(map[], token) == 0;
    } else {
      ConservedUntilLost(changes, k - 1);
      assert changes[..k][..k - 1] == changes[..k - 1];
      assert !LosesAt(changes, k - 1);
      ConservesExactlyUnless(Run(changes[..k - 1]), changes[k - 1]);
    }
  }

  /** Over any run of saves and forgets, with reads and writes refused anywhere: at every
      moment the tokens kept are those in the table plus those handed back to sign out,
      exactly when no save wrote over a table it couldn't read. */
  lemma TokensConserved(changes: seq<Change>)
    ensures (forall k :: 0 <= k <= |changes| ==> Conserved(Run(changes[..k]))) <==>
            (forall k: nat :: k < |changes| ==> !LosesAt(changes, k))
  {
    if k: nat :| k < |changes| && LosesAt(changes, k) {
      assert changes[..k + 1][..k] == changes[..k];
      if Conserved(Run(changes[..k])) {
        ConservesExactlyUnless(Run(changes[..k]), changes[k]);
        assert !Conserved(Run(changes[..k + 1]));
      }
    } else {
      forall k | 0 <= k <= |changes| ensures Conserved(Run(changes[..k])) {
        ConservedUntilLost(changes, k);
      }
    }
  }

  /** What the calls leave kept for `url`: the last save that was written, unless a later
      forget that could read the table was written too, or a save that couldn't read it
      wrote over it. */
  function LastKept(changes: seq<Change>, url: string): Option<Kept> {
    if changes == [] then None
    else
      var before := LastKept(changes[..|changes| - 1], url);
      match changes[|changes| - 1]
      case Save(saved, token, now, readable, writes) =>
        if !writes then before else if saved == url then Some(Kept(token, now)) else if readable then before else None
      case Forget(gone, readable, writes) => if writes && readable && gone == url then None else before
  }

  /** Over any run, the table has exactly that for every server, token and time. */
  lemma {:induction false} TableTells(changes: seq<Change>, url: string)
    ensures var table := Run(changes).table; LastKept(changes, url) == if url in table then Some(table[url]) else None
  {
    if changes != [] {
      TableTells(changes[..|changes| - 1], url);
    }
  }

  /** And a change answers with the token it takes out of the table, if it could read it
      and the write was taken. */
  lemma AnswerTells(changes: seq<Change>, c: Change)
    ensures var kept := LastKept(changes, c.url);
            Apply(Run(changes).table, c).1 == if c.writes && c.readable && kept.Some? then Some(kept.value.token) else None
  {
    TableTells(changes, c.url);
  }

  // -------------------------------------------------------------- two programs

  /** A program about to make one change: waiting, holding the lock, with the table
      read, written back, and let go. `locks` is false when there was no lock to be had. */
  datatype Stage = Waiting | Holding | HasRead(table: SignIns) | Wrote(answer: Option<string>) | Over(answer: Option<string>)

  datatype Program = Program(change: Change, locks: bool, stage: Stage)

  /** `order` and `answers` log who wrote back, and what each was answered. */
  datatype World = World(
    table: SignIns, lock: Option<nat>, programs: seq<Program>, order: seq<nat>, answers: seq<Option<string>>)

  datatype Move = Lock(i: nat) | Read(i: nat) | WriteBack(i: nat) | Unlock(i: nat)

  predicate Enabled(w: World, m: Move) {
    m.i < |w.programs| &&
    var p := w.programs[m.i];
    match m
    case Lock(_) => p.locks && p.stage.Waiting? && w.lock.None?
    case Read(_) => if p.locks then p.stage.Holding? else p.stage.Waiting?
    case WriteBack(_) => p.stage.HasRead?
    case Unlock(_) => p.stage.Wrote?
  }

  function Next(w: World, m: Move): World
    requires Enabled(w, m)
  {
    var p := w.programs[m.i];
    match m
    case Lock(i) => w.(lock := Some(i), programs := w.programs[i := p.(stage := Holding)])
    case Read(i) => w.(programs := w.programs[i := p.(stage := HasRead(w.table))])
    case WriteBack(i) =>
      // The change works on the table as it was read; a refused write leaves the store as it is.
      var (table, answer) := Apply(p.stage.table, p.change);
      var stored := if Puts(p.stage.table, p.change) then table else w.table;
      World(stored, w.lock, w.programs[i := p.(stage := Wrote(answer))], w.order + [i], w.answers + [answer])
    case Unlock(i) =>
      w.(lock := if p.locks then None else w.lock, programs := w.programs[i := p.(stage := Over(p.stage.answer))])
  }

  function After(start: World, moves: seq<Move>): World {
    if moves == [] then start
    else
      var before := After(start, moves[..|moves| - 1]);
      var m := moves[|moves| - 1];
      if Enabled(before, m) then Next(before, m) else before
  }

  /** The changes made one after another, in `order`. */
  function InTurn(table: SignIns, programs: seq<Program>, order: seq<nat>): SignIns
    requires forall k :: 0 <= k < |order| ==> order[k] < |programs|
  {
    if order == [] then table
    else
      var n := |order| - 1;
      Apply(InTurn(table, programs, order[..n]), programs[order[n]].change).0
  }

  predicate Ready(w: World) {
    && w.lock.None? && w.order == [] && w.answers == []
    && forall i :: 0 <= i < |w.programs| ==> w.programs[i].stage.Waiting?
  }

  /** Every program had a lock to take. */
  predicate AllLock(w: World) { forall i :: 0 <= i < |w.programs| ==> w.programs[i].locks }

  predicate Finished(stage: Stage) { stage.Wrote? || stage.Over? }
  predicate Inside(stage: Stage) { stage.Holding? || stage.HasRead? || stage.Wrote? }

  ghost predicate SameChanges(start: World, w: World) {
    && |w.programs| == |start.programs|
    && forall i :: 0 <= i < |w.programs| ==>
         w.programs[i].change == start.programs[i].change && w.programs[i].locks == start.programs[i].locks
  }

  /** Who holds the lock is the only one inside, and read the table as it still is. */
  ghost predicate Alone(w: World) {
    && (forall i :: 0 <= i < |w.programs| && Inside(w.programs[i].stage) ==> w.lock == Some(i))
    && (forall i :: 0 <= i < |w.programs| && w.programs[i].stage.HasRead? ==> w.programs[i].stage.table == w.table)
  }

  /** The log lists those who wrote, each once, with its answer. */
  ghost predicate Logged(w: World) {
    && |w.answers| == |w.order|
    && (forall k :: 0 <= k < |w.order| ==>
          w.order[k] < |w.programs| && Finished(w.programs[w.order[k]].stage)
          && w.programs[w.order[k]].stage.answer == w.answers[k])
    && (forall i :: 0 <= i < |w.programs| && Finished(w.programs[i].stage) ==> i in w.order)
    && (forall j, k :: 0 <= j < k < |w.order| ==> w.order[j] != w.order[k])
  }

  /** The table and the answers are those of the logged changes made in turn. */
  ghost predicate Replays(start: World, w: World) {
    && |w.answers| == |w.order|
    && (forall k :: 0 <= k < |w.order| ==> w.order[k] < |start.programs|)
    && w.table == InTurn(start.table, start.programs, w.order)
    && forall k :: 0 <= k < |w.order| ==>
         w.answers[k] == Apply(InTurn(start.table, start.programs, w.order[..k]), start.programs[w.order[k]].change).1
  }

  lemma StaysAlone(w: World, m: Move)
    requires Alone(w) && Enabled(w, m) && AllLock(w)
    ensures Alone(Next(w, m))
  {
  }

  lemma StaysLogged(w: World, m: Move)
    requires Logged(w) && Enabled(w, m)
    ensures Logged(Next(w, m))
  {
    if m.WriteBack? {
      assert m.i !in w.order;
    }
  }

  lemma StaysSame(start: World, w: World, m: Move)
    requires SameChanges(start, w) && Enabled(w, m)
    ensures SameChanges(start, Next(w, m))
  {
  }

  lemma {:induction false} AlwaysLogged(start: World, moves: seq<Move>)
    requires Ready(start)
    ensures SameChanges(start, After(start, moves)) && Logged(After(start, moves))
  {
    if moves != [] {
      var w, m := After(start, moves[..|moves| - 1]), moves[|moves| - 1];
      AlwaysLogged(start, moves[..|moves| - 1]);
      if Enabled(w, m) {
        assert Logged(Next(w, m)) by { StaysLogged(w, m); }
        assert SameChanges(start, Next(w, m)) by { StaysSame(start, w, m); }
      }
    }
  }

  // -------------------------------------------- which write-backs are in turn

  /** The table as read serves change `c` as well as the table as it is: nothing is
      written anyway, or the server is kept alike in both and so, if it is written
      over, is everybody else. */
  predicate Serves(read: SignIns, now: SignIns, c: Change) {
    || !c.writes || !c.readable
    || (&& (c.url in read <==> c.url in now)
        && (c.url in read ==> read[c.url].token == now[c.url].token)
        && (c.Save? || c.url in read ==> read - {c.url} == now - {c.url}))
  }

  /** What writing change `c` back from `read` makes of the table as it is. */
  function WrittenBack(read: SignIns, now: SignIns, c: Change): (SignIns, Option<string>) {
    var (table, answer) := Apply(read, c);
    (if Puts(read, c) then table else now, answer)
  }

  lemma InsertedAlike(a: SignIns, b: SignIns, url: string, kept: Kept)
    ensures a[url := kept] == b[url := kept] <==> a - {url} == b - {url}
  {
    assert a - {url} == a[url := kept] - {url} && b - {url} == b[url := kept] - {url};
    assert a[url := kept] == (a - {url})[url := kept] && b[url := kept] == (b - {url})[url := kept];
  }

  /** Exactly then is the change made as if it had read the table as it is. */
  lemma ServesExactlyWhen(read: SignIns, now: SignIns, c: Change)
    ensures WrittenBack(read, now, c) == Apply(now, c) <==> Serves(read, now, c)
  {
    if c.writes && c.readable && c.Save? {
      InsertedAlike(read, now, c.url, Kept(c.token, c.now));
    }
  }

  lemma {:induction false} InTurnPrefix(table: SignIns, programs: seq<Program>, order: seq<nat>, i: nat)
    requires (forall k :: 0 <= k < |order| ==> order[k] < |programs|) && i < |programs|
    ensures InTurn(table, programs, order + [i]) == Apply(InTurn(table, programs, order), programs[i].change).0
  {
    assert (order + [i])[..|order|] == order;
  }

  /** One more logged change is in turn exactly when its table and its answer are. */
  lemma ReplaysOneMore(start: World, w: World, i: nat, table: SignIns, answer: Option<string>, r: World)
    requires Replays(start, w) && i < |start.programs|
    requires r.table == table && r.order == w.order + [i] && r.answers == w.answers + [answer]
    ensures Replays(start, r) <==> (table, answer) == Apply(w.table, start.programs[i].change)
  {
    InTurnPrefix(start.table, start.programs, w.order, i);
    assert r.order[..|w.order|] == w.order;
    assert forall k :: 0 <= k < |w.order| ==> r.order[..k] == w.order[..k];
    assert w.order[..|w.order|] == w.order;
    if Replays(start, r) {
      assert r.answers[|w.order|] == answer && r.order[|w.order|] == i;
    }
  }

  /** A program writes back from a table that no longer serves. */
  predicate Stale(w: World, m: Move) {
    Enabled(w, m) && m.WriteBack? && !Serves(w.programs[m.i].stage.table, w.table, w.programs[m.i].change)
  }

  lemma StepReplaysExactlyWhen(start: World, w: World, m: Move)
    requires Replays(start, w) && SameChanges(start, w) && Enabled(w, m)
    ensures Replays(start, Next(w, m)) <==> !Stale(w, m)
  {
    if m.WriteBack? {
      var p := w.programs[m.i];
      var (table, answer) := WrittenBack(p.stage.table, w.table, p.change);
      ServesExactlyWhen(p.stage.table, w.table, p.change);
      ReplaysOneMore(start, w, m.i, table, answer, Next(w, m));
    }
  }

  ghost predicate StaleAt(start: World, moves: seq<Move>, k: nat)
    requires k < |moves|
  {
    Stale(After(start, moves[..k]), moves[k])
  }

  lemma {:induction false} ReplaysUntilStale(start: World, moves: seq<Move>, k: nat)
    requires Ready(start) && k <= |moves| && forall j: nat :: j < k ==> !StaleAt(start, moves, j)
    ensures Replays(start, After(start, moves[..k]))
    decreases k
  {
    if k > 0 {
      ReplaysUntilStale(start, moves, k - 1);
      assert moves[..k][..k - 1] == moves[..k - 1];
      assert !StaleAt(start, moves, k - 1);
      AlwaysLogged(start, moves[..k - 1]);
      if Enabled(After(start, moves[..k - 1]), moves[k - 1]) {
        StepReplaysExactlyWhen(start, After(start, moves[..k - 1]), moves[k - 1]);
      }
    }
  }

  /** With a lock or without, table readable or not: the table and the answers are at
      every moment those of the changes made one after another, in the order they were
      written back, exactly when no program wrote back from a table that no longer served. */
  lemma SequentialExactlyWhen(start: World, moves: seq<Move>)
    requires Ready(start)
    ensures (forall k :: 0 <= k <= |moves| ==> Replays(start, After(start, moves[..k]))) <==>
            (forall k: nat :: k < |moves| ==> !StaleAt(start, moves, k))
  {
    if k: nat :| k < |moves| && StaleAt(start, moves, k) {
      assert moves[..k + 1][..k] == moves[..k];
      AlwaysLogged(start, moves[..k]);
      if Replays(start, After(start, moves[..k])) {
        StepReplaysExactlyWhen(start, After(start, moves[..k]), moves[k]);
        assert !Replays(start, After(start, moves[..k + 1]));
      }
    } else {
      forall k | 0 <= k <= |moves| ensures Replays(start, After(start, moves[..k])) {
        ReplaysUntilStale(start, moves, k);
      }
    }
  }

  // ------------------------------------------------------------ what the lock does

  lemma LocksKept(start: World, moves: seq<Move>)
    requires Ready(start) && AllLock(start)
    ensures AllLock(After(start, moves))
  {
    AlwaysLogged(start, moves);
  }

  lemma {:induction false} AlwaysAlone(start: World, moves: seq<Move>)
    requires Ready(start) && AllLock(start)
    ensures Alone(After(start, moves))
  {
    if moves != [] {
      var w, m := After(start, moves[..|moves| - 1]), moves[|moves| - 1];
      AlwaysAlone(start, moves[..|moves| - 1]);
      LocksKept(start, moves[..|moves| - 1]);
      if Enabled(w, m) {
        StaysAlone(w, m);
      }
    }
  }

  /** Under the lock nobody writes back from a table that no longer serves. */
  lemma LockedIsNeverStale(start: World, moves: seq<Move>, k: nat)
    requires Ready(start) && AllLock(start) && k < |moves|
    ensures !StaleAt(start, moves, k)
  {
    AlwaysAlone(start, moves[..k]);
  }

  /** So at every moment of every interleaving under the lock. */
  lemma AlwaysSerial(start: World, moves: seq<Move>)
    requires Ready(start) && AllLock(start)
    ensures Replays(start, After(start, moves))
  {
    forall k: nat | k < |moves| ensures !StaleAt(start, moves, k) {
      LockedIsNeverStale(start, moves, k);
    }
    ReplaysUntilStale(start, moves, |moves|);
    assert moves[..|moves|] == moves;
  }

  /** Every interleaving of any number of programs, under the lock or without a stale
      write-back, is, once all are over, the same changes made one after another in some
      order, with the same table and the same answers. */
  lemma EveryInterleavingIsSequential(start: World, moves: seq<Move>)
    requires Ready(start) && (AllLock(start) || forall k: nat :: k < |moves| ==> !StaleAt(start, moves, k))
    requires forall p :: p in After(start, moves).programs ==> p.stage.Over?
    ensures var w := After(start, moves);
            SameChanges(start, w) && Replays(start, w) && Logged(w) && forall i: nat :: i < |start.programs| ==> i in w.order
  {
    AlwaysLogged(start, moves);
    if AllLock(start) {
      AlwaysSerial(start, moves);
    } else {
      ReplaysUntilStale(start, moves, |moves|);
      assert moves[..|moves|] == moves;
    }
    var w := After(start, moves);
    forall i: nat | i < |start.programs| ensures i in w.order {
      assert w.programs[i] in w.programs;
    }
  }

  /** A program that saves a token for `url`, and got no lock. */
  function Saver(url: string, stage: Stage): Program { Program(Save(url, url, 1, true, true), false, stage) }

  function Unlocked(table: SignIns, a: Program, b: Program, order: seq<nat>, answers: seq<Option<string>>): World {
    World(table, None, [a, b], order, answers)
  }

  lemma BothRead(url: string, other: string) returns (moves: seq<Move>)
    ensures var start := Unlocked(map[], Saver(url, Waiting), Saver(other, Waiting), [], []);
            After(start, moves) == Unlocked(map[], Saver(url, HasRead(map[])), Saver(other, HasRead(map[])), [], [])
  {
    var start := Unlocked(map[], Saver(url, Waiting), Saver(other, Waiting), [], []);
    var w := start;
    moves := [];
    w, moves := Then(start, moves, w, Read(0));
    w, moves := Then(start, moves, w, Read(1));
  }

  lemma BothWrote(url: string, other: string) returns (moves: seq<Move>)
    ensures var start := Unlocked(map[], Saver(url, Waiting), Saver(other, Waiting), [], []);
            After(start, moves) ==
            Unlocked(map[other := Kept(other, 1)], Saver(url, Wrote(None)), Saver(other, Wrote(None)), [0, 1], [None, None])
  {
    var start := Unlocked(map[], Saver(url, Waiting), Saver(other, Waiting), [], []);
    moves := BothRead(url, other);
    var w := After(start, moves);
    w, moves := Then(start, moves, w, WriteBack(0));
    assert w == Unlocked(map[url := Kept(url, 1)], Saver(url, Wrote(None)), Saver(other, HasRead(map[])), [0], [None]);
    w, moves := Then(start, moves, w, WriteBack(1));
  }

  lemma InEitherOrder(url: string, other: string)
    ensures var programs := [Saver(url, Waiting), Saver(other, Waiting)];
            url in InTurn(map[], programs, [0, 1]) && url in InTurn(map[], programs, [1, 0])
  {
    var programs := [Saver(url, Waiting), Saver(other, Waiting)];
    InTurnPrefix(map[], programs, [0], 1);
    InTurnPrefix(map[], programs, [1], 0);
    assert [0] + [1] == [0, 1] && [1] + [0] == [1, 0];
    assert [0][..0] == [];
    assert url in InTurn(map[], programs, [0]);
  }

  /** The lock is needed: two programs that both read first lose one of their two saves,
      which both sequential orders keep. */
  lemma WithoutTheLockAChangeIsLost(url: string, other: string) returns (start: World, moves: seq<Move>)
    requires url != other
    ensures Ready(start) && |start.programs| == 2
    ensures forall i :: 0 <= i < 2 ==> !start.programs[i].locks && start.programs[i].change.readable
    ensures var w := After(start, moves); (forall p :: p in w.programs ==> p.stage.Over?) && url !in w.table
    ensures url in InTurn(start.table, start.programs, [0, 1]) && url in InTurn(start.table, start.programs, [1, 0])
  {
    start := Unlocked(map[], Saver(url, Waiting), Saver(other, Waiting), [], []);
    moves := BothWrote(url, other);
    var w := After(start, moves);
    w, moves := Then(start, moves, w, Unlock(0));
    w, moves := Then(start, moves, w, Unlock(1));
    assert w.programs == [Saver(url, Over(None)), Saver(other, Over(None))];
    InEitherOrder(url, other);
  }

  lemma Then(start: World, moves: seq<Move>, w: World, m: Move) returns (next: World, longer: seq<Move>)
    requires w == After(start, moves) && Enabled(w, m)
    ensures next == Next(w, m) && next == After(start, longer)
  {
    next, longer := Next(w, m), moves + [m];
    assert longer[..|moves|] == moves;
  }

  // ------------------------------------------------------------------- the store

  /** The store as one program drives it. */
  class Store {
    var table: SignIns

    method SaveSignIn(url: string, token: string, now: nat, readable: bool, writes: bool) returns (replaced: Option<string>)
      modifies this
      ensures (table, replaced) == Apply(old(table), Save(url, token, now, readable, writes))
    {
      var signIns := Load(table, readable);
      replaced := if url in signIns then Some(signIns[url].token) else None;
      signIns := signIns[url := Kept(token, now)];
      if writes {
        table := signIns;
      } else {
        replaced := None;
      }
    }

    method ForgetSignIn(url: string, readable: bool, writes: bool) returns (gone: Option<string>)
      modifies this
      ensures (table, gone) == Apply(old(table), Forget(url, readable, writes))
    {
      var signIns := Load(table, readable);
      if url !in signIns {
        return None;
      }
      gone := Some(signIns[url].token);
      signIns := signIns - {url};
      if writes {
        table := signIns;
      } else {
        gone := None;
      }
    }
  }
}
