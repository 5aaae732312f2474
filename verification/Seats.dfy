/**
 The voice seats the shell keeps for a page that iOS may let go of
 (client/src-tauri/src/voice_away.rs).
 */
module Seats {
  /** A frame the page sent, as far as a seat cares. */
  datatype ClientFrame = VoiceJoin(room: nat) | VoiceLeave | OtherFrame

  /** The part of a server's frame that can end a seat. */
  datatype Said = FreshSession | TakenOut(room: nat) | Nothing

  /** Everything that can happen to the seats. */
  datatype Happening =
    | Sent(server: string, frame: ClientFrame)
    | Heard(server: string, said: Said)
    | Disconnected(server: string)
    | WindowGone
    | TakeEnded

  datatype Book = Book(inVoice: map<string, nat>, ended: map<string, nat>)

  function Step(b: Book, h: Happening): Book {
    match h
    case Sent(server, VoiceJoin(room)) => b.(inVoice := b.inVoice[server := room])
    case Sent(server, VoiceLeave) => b.(inVoice := b.inVoice - {server})
    case Sent(_, OtherFrame) => b
    case Heard(server, FreshSession) => b.(inVoice := b.inVoice - {server})
    case Heard(server, TakenOut(room)) =>
      if server in b.inVoice && b.inVoice[server] == room then b.(inVoice := b.inVoice - {server}) else b
    case Heard(_, Nothing) => b
    case Disconnected(server) => b.(inVoice := b.inVoice - {server})
    case WindowGone => Book(map[], b.ended + b.inVoice)
    case TakeEnded => b.(ended := map[])
  }

  function After(history: seq<Happening>): Book {
    if history == [] then Book(map[], map[]) else Step(After(history[..|history| - 1]), history[|history| - 1])
  }

  // ------------------------------------------------- seats, told from history

  /** Whether `h` ends a seat in `room` on `server`, or moves it. */
  predicate Ends(h: Happening, server: string, room: nat) {
    match h
    case Sent(s, frame) => s == server && !frame.OtherFrame?
    case Heard(s, said) => s == server && (said.FreshSession? || said == TakenOut(room))
    case Disconnected(s) => s == server
    case WindowGone => true
    case TakeEnded => false
  }

  /** The page joined `room` on `server`, and nothing since ended or moved it. */
  ghost predicate Seated(history: seq<Happening>, server: string, room: nat) {
    exists j ::
      && 0 <= j < |history| && history[j] == Sent(server, VoiceJoin(room))
      && forall k :: j < k < |history| ==> !Ends(history[k], server, room)
  }

  ghost predicate SeatedSomewhere(history: seq<Happening>, server: string) {
    exists room :: Seated(history, server, room)
  }

  /** Happening `k` takes what was owed over `server`, or replaces it. */
  ghost predicate Clears(history: seq<Happening>, k: nat, server: string)
    requires k < |history|
  {
    history[k] == TakeEnded || (history[k] == WindowGone && SeatedSomewhere(history[..k], server))
  }

  ghost predicate OwedFrom(history: seq<Happening>, j: nat, server: string, room: nat) {
    && j < |history| && history[j] == WindowGone && Seated(history[..j], server, room)
    && forall k :: j < k < |history| ==> !Clears(history, k, server)
  }

  /** The window went with the seat still held, and nobody was told since. */
  ghost predicate Owed(history: seq<Happening>, server: string, room: nat) {
    exists j: nat :: OwedFrom(history, j, server, room)
  }

  lemma SeatedStep(past: seq<Happening>, h: Happening, server: string, room: nat)
    ensures Seated(past + [h], server, room) <==>
            h == Sent(server, VoiceJoin(room)) || (Seated(past, server, room) && !Ends(h, server, room))
  {
    var history := past + [h];
    if Seated(history, server, room) && h != Sent(server, VoiceJoin(room)) {
      var j :| 0 <= j < |history| && history[j] == Sent(server, VoiceJoin(room))
               && forall k :: j < k < |history| ==> !Ends(history[k], server, room);
      assert past[j] == history[j] && history[|past|] == h;
      assert forall k :: j < k < |past| ==> history[k] == past[k];
    }
    if h == Sent(server, VoiceJoin(room)) {
      assert history[|past|] == h;
    } else if Seated(past, server, room) && !Ends(h, server, room) {
      var j :| 0 <= j < |past| && past[j] == Sent(server, VoiceJoin(room))
               && forall k :: j < k < |past| ==> !Ends(past[k], server, room);
      assert history[j] == past[j];
    }
  }

  lemma ClearsStays(past: seq<Happening>, h: Happening, k: nat, server: string)
    requires k < |past|
    ensures Clears(past + [h], k, server) == Clears(past, k, server)
  {
    assert (past + [h])[..k] == past[..k];
  }

  lemma OwedFromStep(past: seq<Happening>, h: Happening, j: nat, server: string, room: nat)
    requires j < |past|
    ensures OwedFrom(past + [h], j, server, room) <==>
            OwedFrom(past, j, server, room) && !Clears(past + [h], |past|, server)
  {
    assert (past + [h])[..j] == past[..j];
    forall k: nat | k < |past| ensures Clears(past + [h], k, server) == Clears(past, k, server) {
      ClearsStays(past, h, k, server);
    }
  }

  lemma OwedStep(past: seq<Happening>, h: Happening, server: string, room: nat)
    ensures Owed(past + [h], server, room) <==>
            || (h == WindowGone && Seated(past, server, room))
            || (Owed(past, server, room) && h != TakeEnded && !(h == WindowGone && SeatedSomewhere(past, server)))
  {
    var history := past + [h];
    assert history[..|past|] == past;
    if j: nat :| OwedFrom(history, j, server, room) && j < |past| {
      OwedFromStep(past, h, j, server, room);
    }
    if h == WindowGone && Seated(past, server, room) {
      assert OwedFrom(history, |past|, server, room);
    } else if j: nat :| OwedFrom(past, j, server, room) {
      OwedFromStep(past, h, j, server, room);
    }
  }

  ghost predicate Tells(b: Book, history: seq<Happening>) {
    && (forall server, room :: (server in b.inVoice && b.inVoice[server] == room) <==> Seated(history, server, room))
    && (forall server, room :: (server in b.ended && b.ended[server] == room) <==> Owed(history, server, room))
  }

  /** The book says exactly what the history says: who is seated where, and which
      ended seats are still to be told. */
  lemma {:induction false} BookTells(history: seq<Happening>)
    ensures Tells(After(history), history)
  {
    if history != [] {
      var past, h := history[..|history| - 1], history[|history| - 1];
      BookTells(past);
      assert past + [h] == history;
      var b, c := After(past), After(history);
      forall server, room
        ensures (server in c.inVoice && c.inVoice[server] == room) <==> Seated(history, server, room)
        ensures (server in c.ended && c.ended[server] == room) <==> Owed(history, server, room)
      {
        SeatedStep(past, h, server, room);
        OwedStep(past, h, server, room);
        if server in b.inVoice {
          assert Seated(past, server, b.inVoice[server]);
        }
      }
    }
  }

  // ----------------------------------------------------------------- the object

  class Seats {
    var inVoice: map<string, nat>
    var ended: map<string, nat>

    ghost function View(): Book
      reads this
    {
      Book(inVoice, ended)
    }

    constructor ()
      ensures View() == After([])
    {
      inVoice, ended := map[], map[];
    }

    method FrameSent(server: string, frame: ClientFrame)
      modifies this`inVoice
      ensures View() == Step(old(View()), Sent(server, frame))
    {
      match frame {
        case VoiceJoin(room) => inVoice := inVoice[server := room];
        case VoiceLeave => inVoice := inVoice - {server};
        case OtherFrame =>
      }
    }

    method ServerSaid(server: string, said: Said)
      modifies this`inVoice
      ensures View() == Step(old(View()), Heard(server, said))
    {
      match said {
        case FreshSession => inVoice := inVoice - {server};
        case TakenOut(room) =>
          if server in inVoice && inVoice[server] == room {
            inVoice := inVoice - {server};
          }
        case Nothing =>
      }
    }

    method ConnectionGone(server: string)
      modifies this`inVoice
      ensures View() == Step(old(View()), Disconnected(server))
    {
      inVoice := inVoice - {server};
    }

    /** The window is let go of: name the servers with a seat held, each once. */
    method LetGo(ghost history: seq<Happening>) returns (servers: seq<string>)
      requires View() == After(history)
      modifies this
      ensures View() == After(history + [WindowGone])
      ensures forall s :: s in servers <==> SeatedSomewhere(history, s)
      ensures forall i, j :: 0 <= i < j < |servers| ==> servers[i] != servers[j]
    {
      BookTells(history);
      assert (history + [WindowGone])[..|history|] == history;
      var gone := inVoice;
      inVoice := map[];
      servers := [];
      var left := gone.Keys;
      while left != {}
        invariant left <= gone.Keys
        invariant forall s :: s in servers <==> s in gone.Keys - left
        invariant forall i, j :: 0 <= i < j < |servers| ==> servers[i] != servers[j]
        decreases left
      {
        var s :| s in left;
        assert s !in servers;
        servers := servers + [s];
        left := left - {s};
      }
      forall s ensures s in servers <==> SeatedSomewhere(history, s) {
        if s in gone {
          assert Seated(history, s, gone[s]);
        }
      }
      ended := ended + gone;
    }

    /** Hand over what is owed, and owe nothing. */
    method TakeAll(ghost history: seq<Happening>) returns (told: map<string, nat>)
      requires View() == After(history)
      modifies this`ended
      ensures View() == After(history + [TakeEnded]) && ended == map[]
      ensures forall s, room :: (s in told && told[s] == room) <==> Owed(history, s, room)
    {
      BookTells(history);
      assert (history + [TakeEnded])[..|history|] == history;
      told := ended;
      ended := map[];
    }
  }
}
