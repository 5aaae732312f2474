/**
 The two files a downloaded update is kept in (client/src-tauri/src/updates.rs): a file
 of bytes and a record naming them, each written under another name and renamed.
 */
module UpdateStore {
  import opened Common

  type Bytes = seq<nat>

  /** What an update is: its version and the release's signature. */
  datatype Kept = Kept(version: string, signature: string)

  /** One call of `keep`, with what it was given. */
  datatype Update = Update(record: Kept, bytes: Bytes)

  /** A record file: whole, written by the `nth` call of `keep`, or cut short. */
  datatype About = Whole(record: Kept, nth: nat) | CutShort

  datatype Folder = Folder(about: Option<About>, bytes: Option<Bytes>, aboutPart: Option<About>, bytesPart: Option<Bytes>)

  /** `kept`: the record, if it reads and there are bytes beside it. */
  function Answer(f: Folder): Option<Kept> {
    if f.about.Some? && f.about.value.Whole? && f.bytes.Some? then Some(f.about.value.record) else None
  }

  /** The steps of `keep`, by the one that comes next. */
  datatype Stage = Removing | WritingBytes | MovingBytes | WritingAbout | MovingAbout

  datatype State = State(folder: Folder, keeping: Option<Stage>, keeps: seq<Update>)

  datatype Event =
    | Begin(update: Update)        // `download` lets one through at a time
    | RemoveOld(removed: bool)     // the old record, whose removal is not checked
    | WriteBytes(written: nat)     // so far; the whole file once `written` reaches its length
    | MoveBytes
    | WriteAbout(whole: bool)
    | MoveAbout
    | Stop                         // an error, or the process ends
    | ForgetAbout                  // the two removals of `forget`, from anywhere, in between anything
    | ForgetBytes

  predicate Enabled(s: State, e: Event) {
    match e
    case Begin(_) => s.keeping.None?
    case RemoveOld(_) => s.keeping == Some(Removing)
    case WriteBytes(_) => s.keeping == Some(WritingBytes) && s.keeps != []
    case MoveBytes => s.keeping == Some(MovingBytes) && s.folder.bytesPart.Some?
    case WriteAbout(_) => s.keeping == Some(WritingAbout) && s.keeps != []
    case MoveAbout => s.keeping == Some(MovingAbout) && s.folder.aboutPart.Some?
    case Stop => s.keeping.Some?
    case ForgetAbout => true
    case ForgetBytes => true
  }

  function Next(s: State, e: Event): State
    requires Enabled(s, e)
  {
    var f := s.folder;
    match e
    case Begin(update) => s.(keeping := Some(Removing), keeps := s.keeps + [update])
    case RemoveOld(removed) =>
      s.(folder := if removed then f.(about := None) else f, keeping := Some(WritingBytes))
    case WriteBytes(written) =>
      var bytes := s.keeps[|s.keeps| - 1].bytes;
      if written < |bytes| then s.(folder := f.(bytesPart := Some(bytes[..written])))
      else s.(folder := f.(bytesPart := Some(bytes)), keeping := Some(MovingBytes))
    case MoveBytes => s.(folder := f.(bytes := f.bytesPart, bytesPart := None), keeping := Some(WritingAbout))
    case WriteAbout(whole) =>
      var n := |s.keeps| - 1;
      if whole then s.(folder := f.(aboutPart := Some(Whole(s.keeps[n].record, n))), keeping := Some(MovingAbout))
      else s.(folder := f.(aboutPart := Some(CutShort)))
    case MoveAbout => s.(folder := f.(about := f.aboutPart, aboutPart := None), keeping := None)
    case Stop => s.(keeping := None)
    case ForgetAbout => s.(folder := f.(about := None))
    case ForgetBytes => s.(folder := f.(bytes := None))
  }

  function Empty(): State { State(Folder(None, None, None, None), None, []) }

  function After(events: seq<Event>): State {
    if events == [] then Empty()
    else
      var before := After(events[..|events| - 1]);
      var e := events[|events| - 1];
      if Enabled(before, e) then Next(before, e) else before
  }

  // --------------------------------------------------------------- always whole

  /** The record in place, if it reads, is some keep's, and bytes beside it are that
      keep's, whole. */
  ghost predicate Matches(s: State) {
    s.folder.about.Some? && s.folder.about.value.Whole? ==>
      var nth := s.folder.about.value.nth;
      && nth < |s.keeps| && s.folder.about.value.record == s.keeps[nth].record
      && (s.folder.bytes.Some? ==> s.folder.bytes.value == s.keeps[nth].bytes)
  }

  /** What `kept` answers is what one call of `keep` was given, record and bytes. */
  ghost predicate Honest(s: State) {
    Answer(s.folder).Some? ==>
      && s.folder.about.value.nth < |s.keeps|
      && Update(Answer(s.folder).value, s.folder.bytes.value) == s.keeps[s.folder.about.value.nth]
  }

  /** Any record that reads is some keep's, and a keep under way has done its steps in
      order. This holds of every run. */
  ghost predicate InOrder(s: State) {
    && (s.folder.about.Some? && s.folder.about.value.Whole? ==>
          s.folder.about.value.nth < |s.keeps| && s.folder.about.value.record == s.keeps[s.folder.about.value.nth].record)
    && (s.keeping.Some? ==>
          && s.keeps != []
          && var n := |s.keeps| - 1;
             && (s.keeping.value == MovingBytes ==> s.folder.bytesPart == Some(s.keeps[n].bytes))
             && (s.keeping.value == WritingAbout || s.keeping.value == MovingAbout ==>
                   s.folder.bytes.None? || s.folder.bytes == Some(s.keeps[n].bytes))
             && (s.keeping.value == MovingAbout ==> s.folder.aboutPart == Some(Whole(s.keeps[n].record, n))))
  }

  /** The one step that can do harm: new bytes are moved in under a record that is still
      there and says it is of others. */
  ghost predicate Overlays(s: State, e: Event) {
    && e.MoveBytes? && s.folder.about.Some? && s.folder.about.value.Whole?
    && s.folder.about.value.nth < |s.keeps|
    && s.folder.bytesPart != Some(s.keeps[s.folder.about.value.nth].bytes)
  }

  lemma StepsInOrder(s: State, e: Event)
    requires InOrder(s) && Enabled(s, e)
    ensures InOrder(Next(s, e))
  {
  }

  lemma StepKeepsExactlyWhen(s: State, e: Event)
    requires InOrder(s) && Matches(s) && Enabled(s, e)
    ensures Matches(Next(s, e)) <==> !Overlays(s, e)
    ensures Honest(Next(s, e)) <==> !Overlays(s, e)
  {
  }

  lemma {:induction false} AlwaysInOrder(events: seq<Event>)
    ensures InOrder(After(events))
  {
    if events != [] {
      var n := |events| - 1;
      AlwaysInOrder(events[..n]);
      if Enabled(After(events[..n]), events[n]) {
        StepsInOrder(After(events[..n]), events[n]);
      }
    }
  }

  ghost predicate EverOverlays(events: seq<Event>) {
    exists k :: 0 <= k < |events| && Enabled(After(events[..k]), events[k]) && Overlays(After(events[..k]), events[k])
  }

  ghost predicate AlwaysHonest(events: seq<Event>) { forall k :: 0 <= k <= |events| ==> Honest(After(events[..k])) }

  lemma {:induction false} MatchesUntilItOverlays(events: seq<Event>, k: nat)
    requires k <= |events| && forall j :: 0 <= j < k && Enabled(After(events[..j]), events[j]) ==> !Overlays(After(events[..j]), events[j])
    ensures Matches(After(events[..k])) && Honest(After(events[..k]))
    decreases k
  {
    if k > 0 {
      MatchesUntilItOverlays(events, k - 1);
      var before, s := After(events[..k - 1]), After(events[..k]);
      assert events[..k][..k - 1] == events[..k - 1];
      AlwaysInOrder(events[..k - 1]);
      if Enabled(before, events[k - 1]) {
        StepKeepsExactlyWhen(before, events[k - 1]);
      }
    }
  }

  /** Over any number of keeps stopped or crashed anywhere, with forgets at any moment
      and removals refused: whatever `kept` answers is whole, at every moment, exactly
      when no keep moved other bytes in under a record that was still there. */
  lemma AnsweredIsWhole(events: seq<Event>)
    ensures AlwaysHonest(events) <==> !EverOverlays(events)
  {
    if EverOverlays(events) {
      var k :| 0 <= k < |events| && Enabled(After(events[..k]), events[k]) && Overlays(After(events[..k]), events[k]);
      if Honest(After(events[..k])) {
        AlwaysInOrder(events[..k]);
        StepKeepsExactlyWhen(After(events[..k]), events[k]);
        assert events[..k + 1][..k] == events[..k];
        assert !Honest(After(events[..k + 1]));
      }
    } else {
      forall k | 0 <= k <= |events| ensures Honest(After(events[..k])) {
        MatchesUntilItOverlays(events, k);
      }
    }
  }

  // ------------------------------------------------ when the old record is removed

  ghost predicate Removes(events: seq<Event>) {
    forall k :: 0 <= k < |events| && events[k].RemoveOld? ==> events[k].removed
  }

  /** A keep past its first step left no record in place. */
  ghost predicate Cleared(s: State) { s.keeping.Some? && s.keeping.value != Removing ==> s.folder.about.None? }

  lemma {:induction false} StaysCleared(events: seq<Event>)
    requires Removes(events)
    ensures Cleared(After(events))
  {
    if events != [] {
      var n := |events| - 1;
      assert forall k :: 0 <= k < n ==> events[..n][k] == events[k];
      StaysCleared(events[..n]);
    }
  }

  /** Where every removal of an old record went through, `kept` always answers whole. */
  lemma RemovedIsWhole(events: seq<Event>)
    requires Removes(events)
    ensures AlwaysHonest(events)
  {
    AnsweredIsWhole(events);
    if EverOverlays(events) {
      var k :| 0 <= k < |events| && Enabled(After(events[..k]), events[k]) && Overlays(After(events[..k]), events[k]);
      assert forall j :: 0 <= j < k ==> events[..k][j] == events[j];
      StaysCleared(events[..k]);
    }
  }

  /** And a keep nobody interrupts or forgets is answered, with its bytes. */
  lemma KeptIsAnswered(s: State, update: Update)
    requires s.keeping.None?
    ensures var begun := Next(s, Begin(update));
            var cleared := Next(begun, RemoveOld(true));
            var written := Next(cleared, WriteBytes(|update.bytes|));
            var moved := Next(written, MoveBytes);
            var about := Next(moved, WriteAbout(true));
            var done := Next(about, MoveAbout);
            Answer(done.folder) == Some(update.record) && done.folder.bytes == Some(update.bytes)
  {
  }

  lemma Then(events: seq<Event>, s: State, e: Event) returns (next: State, longer: seq<Event>)
    requires s == After(events) && Enabled(s, e)
    ensures next == Next(s, e) && next == After(longer)
  {
    next, longer := Next(s, e), events + [e];
    assert longer[..|events|] == events;
  }

  /** If the old record can't be removed, a crash after the new bytes are in place
      leaves them under the old record. */
  lemma UnremovedRecordLies(was: Update, now: Update) returns (s: State)
    requires was.record != now.record && was.bytes != now.bytes
    ensures exists events :: After(events) == s
    ensures Answer(s.folder) == Some(was.record) && s.folder.bytes == Some(now.bytes)
  {
    var events: seq<Event> := [];
    s := Empty();
    s, events := Then(events, s, Begin(was));
    s, events := Then(events, s, RemoveOld(true));
    s, events := Then(events, s, WriteBytes(|was.bytes|));
    s, events := Then(events, s, MoveBytes);
    s, events := Then(events, s, WriteAbout(true));
    s, events := Then(events, s, MoveAbout);
    s, events := Then(events, s, Begin(now));
    s, events := Then(events, s, RemoveOld(false));
    s, events := Then(events, s, WriteBytes(|now.bytes|));
    s, events := Then(events, s, MoveBytes);
    s, events := Then(events, s, Stop);
  }

  // ------------------------------------------------------------------ the folder

  /** Where `keep` stops: before which step an error or a crash takes it. Whether the
      old record was `removed` is not looked at. */
  function KeepUpTo(f: Folder, update: Update, nth: nat, removed: bool, steps: nat): Folder {
    var cleared := if steps > 0 && removed then f.(about := None) else f;
    var part := if steps > 1 then cleared.(bytesPart := Some(update.bytes)) else cleared;
    var moved := if steps > 2 then part.(bytes := Some(update.bytes), bytesPart := None) else part;
    var about := if steps > 3 then moved.(aboutPart := Some(Whole(update.record, nth))) else moved;
    if steps > 4 then about.(about := Some(Whole(update.record, nth)), aboutPart := None) else about
  }

  function KeepEvents(update: Update, removed: bool): seq<Event> {
    [Begin(update), RemoveOld(removed), WriteBytes(|update.bytes|), MoveBytes, WriteAbout(true), MoveAbout]
  }

  function Play(s: State, events: seq<Event>): State {
    if events == [] then s
    else
      var before := Play(s, events[..|events| - 1]);
      var e := events[|events| - 1];
      if Enabled(before, e) then Next(before, e) else before
  }

  lemma PlayStep(s: State, events: seq<Event>, n: nat)
    requires n < |events|
    ensures Play(s, events[..n + 1]) ==
            var before := Play(s, events[..n]); if Enabled(before, events[n]) then Next(before, events[n]) else before
  {
    assert events[..n + 1][..n] == events[..n];
  }

  /** The stage `keep` is at after so many of its events. */
  function StageAfter(n: nat): Option<Stage> {
    if n == 1 then Some(Removing) else if n == 2 then Some(WritingBytes) else if n == 3 then Some(MovingBytes)
    else if n == 4 then Some(WritingAbout) else if n == 5 then Some(MovingAbout) else None
  }

  /** `keep` stopped before a step is that many of the events above. */
  lemma {:induction false} KeepIsTheSteps(s: State, update: Update, removed: bool, steps: nat)
    requires s.keeping.None? && steps <= 5
    ensures Play(s, KeepEvents(update, removed)[..steps + 1]) ==
            State(KeepUpTo(s.folder, update, |s.keeps|, removed, steps), StageAfter(steps + 1), s.keeps + [update])
    decreases steps
  {
    var all := KeepEvents(update, removed);
    PlayStep(s, all, steps);
    if steps == 0 {
      assert all[..0] == [];
    } else {
      KeepIsTheSteps(s, update, removed, steps - 1);
    }
  }

  /** One call of `keep`, stopped anywhere: what is answered afterwards is whole exactly
      when the old record was removed, or there was none to read, or the call stopped
      before its bytes were in place or after its own record was, or the bytes are the same. */
  lemma KeepIsWholeExactlyWhen(s: State, update: Update, removed: bool, steps: nat)
    requires Matches(s) && s.keeping.None? && steps <= 5
    ensures Matches(State(KeepUpTo(s.folder, update, |s.keeps|, removed, steps), None, s.keeps + [update])) <==>
            || removed || steps <= 2 || steps > 4
            || !(s.folder.about.Some? && s.folder.about.value.Whole?)
            || s.keeps[s.folder.about.value.nth].bytes == update.bytes
  {
  }

  class UpdateFolder {
    var about: Option<About>
    var bytes: Option<Bytes>
    var aboutPart: Option<About>
    var bytesPart: Option<Bytes>

    ghost function View(): Folder
      reads this
    {
      Folder(about, bytes, aboutPart, bytesPart)
    }

    /** `keep`, stopped before step `steps`; 5 or more is all of it. */
    method Keep(update: Update, nth: nat, removed: bool, steps: nat) returns (ok: bool)
      modifies this
      ensures View() == KeepUpTo(old(View()), update, nth, removed, steps)
      ensures ok <==> steps > 4
      ensures ok ==> Answer(View()) == Some(update.record) && bytes == Some(update.bytes)
      ensures !ok && steps > 0 && removed ==> Answer(View()).None?
    {
      ok := false;
      if steps == 0 { return; }
      if removed { about := None; }
      if steps == 1 { return; }
      bytesPart := Some(update.bytes);
      if steps == 2 { return; }
      bytes, bytesPart := bytesPart, None;
      if steps == 3 { return; }
      aboutPart := Some(Whole(update.record, nth));
      if steps == 4 { return; }
      about, aboutPart := aboutPart, None;
      ok := true;
    }

    method Kept() returns (record: Option<Kept>)
      ensures record == Answer(View())
      ensures record.Some? ==> bytes.Some?
    {
      record := None;
      if about.Some? && about.value.Whole? && bytes.Some? {
        record := Some(about.value.record);
      }
    }

    /** Two removals, neither looked at: one that goes through is enough. */
    method Forget(aboutGoes: bool, bytesGo: bool)
      modifies this`about, this`bytes
      ensures View() == old(View()).(about := if aboutGoes then None else old(about), bytes := if bytesGo then None else old(bytes))
      ensures Answer(View()) == if aboutGoes || bytesGo then None else Answer(old(View()))
    {
      if aboutGoes { about := None; }
      if bytesGo { bytes := None; }
    }
  }
}
