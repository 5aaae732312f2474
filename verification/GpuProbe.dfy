/**
 Whether a launch tries WebKit's GPU path, and how the next one learns how it
 went (client/src-tauri/src/linux_startup.rs, client/src-tauri/src/graphics.rs).
 */
module GpuProbe {
  import opened Common

  // ------------------------------------------------------------------- versions

  predicate White(c: char) { c in {' ', '\t', '\n', '\r'} }

  function TrimStart(s: string): string { if s != "" && White(s[0]) then TrimStart(s[1..]) else s }

  function TrimEnd(s: string): string {
    if s != "" && White(s[|s| - 1]) then TrimEnd(s[..|s| - 1]) else s
  }

  function Trim(s: string): string { TrimEnd(TrimStart(s)) }

  /** `major.minor.micro`, as `webkit_version` formats it. */
  predicate IsVersion(s: string) { s != "" && forall i :: 0 <= i < |s| ==> s[i] == '.' || '0' <= s[i] <= '9' }

  // ----------------------------------------------------------------- one launch

  /** The state folder: the probe a launch leaves, and the `gbm-off-` records. */
  datatype Disk = Disk(probe: Option<string>, off: set<string>, legacyOff: bool)

  datatype Gbm = On | Off

  datatype Launch = Launch(nativeWayland: bool, appimage: bool, webkit: string)

  /** Which of this launch's changes to the folder go through. */
  datatype Writes = Writes(legacy: bool, off: bool, removal: bool, probe: bool)

  const ALL := Writes(true, true, true, true)

  /** `choose_gbm`: what the folder holds afterwards, and what was chosen.
      `state` is whether there is a folder to keep the probe in. */
  function Choose(d: Disk, launch: Launch, state: bool, w: Writes): (Disk, Gbm) {
    if launch.appimage || !launch.nativeWayland || !state then (d, Off)
    else
      var swept := if w.legacy then d.(legacyOff := false) else d;
      var read :=
        if d.probe.None? then swept
        else
          var crashed := if Trim(d.probe.value) == "" then launch.webkit else Trim(d.probe.value);
          swept.(off := if w.off then d.off + {crashed} else d.off, probe := if w.removal then None else d.probe);
      if launch.webkit in read.off then (read, Off)
      else if w.probe then (read.(probe := Some(launch.webkit)), On)
      else (read, Off)
  }

  /** What drawing leaves in the folder. */
  function Drawn(d: Disk, removed: bool): Disk { if removed then d.(probe := None) else d }

  class StateFolder {
    var probe: Option<string>
    var off: set<string>
    var legacyOff: bool
    /** Whether a running Linger holds `running.lock`. */
    var locked: bool

    ghost function View(): Disk
      reads this
    {
      Disk(probe, off, legacyOff)
    }

    /** `probe_state`: the folder, if there is one at all (`folder`), unless another
        Linger holds the lock. An error taking it (`lockable` false) counts as being
        the only one. */
    method ProbeState(folder: bool, lockable: bool) returns (state: bool)
      modifies this`locked
      ensures View() == old(View())
      ensures state == (folder && (!lockable || !old(locked)))
      ensures locked == (old(locked) || (folder && lockable))
    {
      if !folder {
        return false;
      }
      if !lockable {
        return true;
      }
      if locked {
        return false;
      }
      locked := true;
      return true;
    }

    method ChooseGbm(launch: Launch, state: bool, w: Writes) returns (gbm: Gbm)
      modifies this`probe, this`off, this`legacyOff
      ensures (View(), gbm) == Choose(old(View()), launch, state, w)
      ensures gbm == On ==> probe == Some(launch.webkit) && launch.webkit !in off
    {
      if launch.appimage || !launch.nativeWayland {
        return Off;
      }
      if !state {
        return Off;
      }
      if w.legacy {
        legacyOff := false;
      }
      if probe.Some? {
        var crashed := Trim(probe.value);
        if crashed == "" {
          crashed := launch.webkit;
        }
        if w.off {
          off := off + {crashed};
        }
        if w.removal {
          probe := None;
        }
      }
      if launch.webkit in off {
        return Off;
      }
      if w.probe {
        probe := Some(launch.webkit);
        return On;
      }
      return Off;
    }

    /** The page has drawn frames. Whether the probe could be removed isn't looked at. */
    method GraphicsStarted(removed: bool)
      modifies this`probe
      ensures View() == Drawn(old(View()), removed)
    {
      if removed {
        probe := None;
      }
    }
  }

  // ------------------------------------------------------------- runs of launches

  /** The Linger that holds the lock: whether it tried the GPU path, and drew. */
  datatype Running = Running(webkit: string, tried: bool, drew: bool, eligible: bool)

  datatype Computer = Computer(disk: Disk, running: Option<Running>, deaths: multiset<string>)

  datatype Event =
    | Start(launch: Launch, byHand: bool, w: Writes)  // `byHand`: somebody set the GPU path themselves
    | Draw(removed: bool)                             // and the probe removed with it, or not
    | Exit                                            // crash or not

  predicate Eligible(e: Event) { e.Start? && e.launch.nativeWayland && !e.launch.appimage && !e.byHand }

  predicate Enabled(c: Computer, e: Event) { e.Start? || c.running.Some? }

  function Next(c: Computer, e: Event): Computer
    requires Enabled(c, e)
  {
    match e
    case Start(launch, byHand, w) =>
      // A second copy is given no folder: it chooses Off, touches nothing, hands over and quits.
      var first := c.running.None?;
      var (disk, gbm) := if byHand then (c.disk, Off) else Choose(c.disk, launch, first, w);
      if first then Computer(disk, Some(Running(launch.webkit, gbm.On?, false, Eligible(e))), c.deaths)
      else c.(disk := disk)
    case Draw(removed) => c.(disk := Drawn(c.disk, removed), running := Some(c.running.value.(drew := true)))
    case Exit =>
      var r := c.running.value;
      Computer(c.disk, None, if r.tried && !r.drew then c.deaths + multiset{r.webkit} else c.deaths)
  }

  function After(events: seq<Event>): Computer {
    if events == [] then Computer(Disk(None, {}, false), None, multiset{})
    else
      var before := After(events[..|events| - 1]);
      var e := events[|events| - 1];
      if Enabled(before, e) then Next(before, e) else before
  }

  /** A draw that removes the probe is of a launch that decided for itself, or has none
      to remove; one that couldn't remove it is of a launch with nothing left to clear. */
  predicate DrawsWell(c: Computer, removed: bool)
    requires c.running.Some?
  {
    if removed then c.running.value.eligible || c.disk.probe.None? else !Trying(c)
  }

  /** The writes of a launch succeed, versions are versions, and draws are of the right
      launches. */
  predicate Fair(c: Computer, e: Event)
    requires Enabled(c, e)
  {
    match e
    case Start(launch, _, w) => w == ALL && IsVersion(launch.webkit)
    case Draw(removed) => DrawsWell(c, removed)
    case Exit => true
  }

  ghost predicate FairRun(events: seq<Event>) {
    forall k {:trigger events[k]} :: 0 <= k < |events| && Enabled(After(events[..k]), events[k])
      ==> Fair(After(events[..k]), events[k])
  }

  /** The copy running is on the GPU path, with its first frames still to come. */
  predicate Trying(c: Computer) { c.running.Some? && c.running.value.tried && !c.running.value.drew }

  ghost predicate Sound(c: Computer) {
    && (forall v :: c.deaths[v] <= 1)
    && (forall v :: v in c.disk.off ==> v in c.deaths)
    && (c.running.Some? && c.running.value.tried ==> c.running.value.eligible)
    && (c.disk.probe.Some? ==> IsVersion(c.disk.probe.value) && c.disk.probe.value !in c.disk.off)
    && (if Trying(c)
        then c.disk.probe == Some(c.running.value.webkit) && c.deaths[c.running.value.webkit] == 0
             && forall v :: v in c.deaths ==> v in c.disk.off
        else (c.disk.probe.Some? ==> c.disk.probe.value in c.deaths)
             && forall v :: v in c.deaths ==> v in c.disk.off || c.disk.probe == Some(v))
    && (c.running.Some? && c.running.value.eligible && !Trying(c) ==> c.disk.probe.None?)
  }

  lemma VersionsAreTrim(s: string)
    requires IsVersion(s)
    ensures Trim(s) == s
  {
  }

  lemma {:induction false} TrimsStart(pad: string, s: string)
    requires (forall i :: 0 <= i < |pad| ==> White(pad[i])) && (s == "" || !White(s[0]))
    ensures TrimStart(pad + s) == s
  {
    if pad == "" {
      assert pad + s == s;
    } else {
      assert (pad + s)[1..] == pad[1..] + s;
      TrimsStart(pad[1..], s);
    }
  }

  lemma {:induction false} TrimsEnd(s: string, pad: string)
    requires (forall i :: 0 <= i < |pad| ==> White(pad[i])) && (s == "" || !White(s[|s| - 1]))
    ensures TrimEnd(s + pad) == s
  {
    if pad == "" {
      assert s + pad == s;
    } else {
      assert (s + pad)[..|s + pad| - 1] == s + pad[..|pad| - 1];
      TrimsEnd(s, pad[..|pad| - 1]);
    }
  }

  /** A version padded with white space on either side is read as the version. */
  lemma PaddedVersionReads(before: string, version: string, after: string)
    requires IsVersion(version)
    requires (forall i :: 0 <= i < |before| ==> White(before[i])) && (forall i :: 0 <= i < |after| ==> White(after[i]))
    ensures Trim(before + version + after) == version
  {
    assert before + version + after == before + (version + after);
    TrimsStart(before, version + after);
    TrimsEnd(version, after);
  }

  /** A probe that says nothing is held against the WebKit that finds it, from then on. */
  lemma BlankProbeIsHeldAgainstThis(d: Disk, launch: Launch, again: Launch)
    requires d.probe.Some? && forall i :: 0 <= i < |d.probe.value| ==> White(d.probe.value[i])
    requires launch.nativeWayland && !launch.appimage && again.webkit == launch.webkit
    ensures var (r, gbm) := Choose(d, launch, true, ALL);
            gbm == Off && launch.webkit in r.off && Choose(r, again, true, ALL).1 == Off
  {
    TrimsStart(d.probe.value, "");
    assert d.probe.value + "" == d.probe.value;
  }

  /** The record without a version counts for nothing, and goes with the first launch that
      has a folder and decides for itself. */
  lemma OldRecordGoes(d: Disk, launch: Launch, state: bool)
    ensures Choose(d.(legacyOff := true), launch, state, ALL).1 == Choose(d.(legacyOff := false), launch, state, ALL).1
    ensures launch.nativeWayland && !launch.appimage && state ==> !Choose(d, launch, state, ALL).0.legacyOff
  {
  }

  lemma StepKeeps(c: Computer, e: Event)
    requires Sound(c) && Enabled(c, e) && Fair(c, e)
    ensures Sound(Next(c, e))
  {
    if c.disk.probe.Some? {
      VersionsAreTrim(c.disk.probe.value);
    }
  }

  /** Exactly these draws keep it so. */
  lemma DrawKeepsExactlyWhen(c: Computer, removed: bool)
    requires Sound(c) && c.running.Some?
    ensures Sound(Next(c, Draw(removed))) <==> DrawsWell(c, removed)
  {
    if DrawsWell(c, removed) {
      StepKeeps(c, Draw(removed));
    } else {
      var v, d := c.disk.probe.value, Next(c, Draw(removed));
      assert if removed then v in d.deaths && v !in d.disk.off && d.disk.probe.None? else v !in d.deaths;
    }
  }

  /** A start of `webkit` by a launch that decides for itself. */
  function Alone(webkit: string): Event { Start(Launch(true, false, webkit), false, ALL) }

  /** What every other draw leads to, with the next ordinary launch. After one that
      removed somebody else's probe, that version can die again. After one that couldn't
      remove its own, a version that never died is recorded as off. */
  lemma OtherDrawsShow(c: Computer, removed: bool)
    requires Sound(c) && c.running.Some? && !DrawsWell(c, removed)
    ensures c.disk.probe.Some?
    ensures var v := c.disk.probe.value;
            var closed := Next(Next(c, Draw(removed)), Exit);
            var again := Next(closed, Alone(v));
            if removed then Next(again, Exit).deaths[v] == 2 else v in again.disk.off && v !in again.deaths
  {
    VersionsAreTrim(c.disk.probe.value);
  }

  lemma FairPrefix(events: seq<Event>, n: nat)
    requires FairRun(events) && n <= |events|
    ensures FairRun(events[..n])
  {
    assert forall k :: 0 <= k < n ==> events[..n][k] == events[k] && events[..n][..k] == events[..k];
  }

  /** Each WebKit version dies on the GPU path at most once, however many second
      copies are started, and is recorded as off only if it did. */
  lemma {:induction false} DiesAtMostOnce(events: seq<Event>)
    requires FairRun(events)
    ensures var c := After(events);
            (forall v :: c.deaths[v] <= 1) && (forall v :: v in c.disk.off ==> v in c.deaths)
    ensures Sound(After(events))
  {
    if events != [] {
      var n := |events| - 1;
      FairPrefix(events, n);
      DiesAtMostOnce(events[..n]);
      if Enabled(After(events[..n]), events[n]) {
        StepKeeps(After(events[..n]), events[n]);
      }
    }
  }

  /** And a launch that decides for itself, as the only copy, tries the GPU path
      exactly when its WebKit never died there. */
  lemma TriesUnlessItDied(events: seq<Event>, launch: Launch)
    requires FairRun(events) && After(events).running.None?
    requires launch.nativeWayland && !launch.appimage && IsVersion(launch.webkit)
    ensures Choose(After(events).disk, launch, true, ALL).1 == On <==> launch.webkit !in After(events).deaths
  {
    DiesAtMostOnce(events);
    var d := After(events).disk;
    if d.probe.Some? {
      VersionsAreTrim(d.probe.value);
    }
  }

  // ---------------------------------------------------- what the condition is for

  ghost predicate Reached(c: Computer) { exists events :: After(events) == c }

  lemma Then(c: Computer, e: Event) returns (next: Computer)
    requires Reached(c) && Enabled(c, e)
    ensures Reached(next) && next == Next(c, e)
  {
    next := Next(c, e);
    var events :| After(events) == c;
    assert (events + [e])[..|events|] == events;
    assert After(events + [e]) == next;
  }

  /** `graphics_started` clears the probe whether or not its launch tried the GPU
      path, so a launch set by hand that draws lets the same version die again. */
  lemma HandSetLaunchForgets(webkit: string) returns (c: Computer)
    ensures Reached(c) && c.deaths[webkit] == 2
  {
    var alone, byHand := Alone(webkit), Start(Launch(true, false, webkit), true, ALL);
    c := Computer(Disk(None, {}, false), None, multiset{});
    assert After([]) == c;
    c := Then(c, alone);
    c := Then(c, Exit);
    c := Then(c, byHand);
    c := Then(c, Draw(true));
    c := Then(c, Exit);
    c := Then(c, alone);
    c := Then(c, Exit);
  }
}
