/**
 Where the client keeps its sign-ins: one keyring entry per server and an index
 of servers, under writes the keyring may refuse (client/src-tauri/src/secrets.rs).
 */
module Keyring {
  import opened Common

  datatype StoredSession = StoredSession(baseUrl: string, token: string)

  /** What an account's JSON parses to. */
  datatype Content = Urls(urls: seq<string>) | Session(session: StoredSession) | Junk

  type Store = map<string, Content>

  datatype SessionsLoad = Found(sessions: seq<StoredSession>) | Empty | Unread

  datatype SessionWrite = Done | Unavailable

  function IndexAccount(ns: string): string { ns + "-servers" }

  function ServerAccount(ns: string, url: string): string { ns + "-server:" + url }

  function LegacyAccount(ns: string): string { ns }

  /** No two accounts share a name, so no entry is ever taken for another. */
  lemma AccountsApart(ns: string, url: string, other: string)
    ensures ServerAccount(ns, url) != IndexAccount(ns)
    ensures ServerAccount(ns, url) != LegacyAccount(ns) && IndexAccount(ns) != LegacyAccount(ns)
    ensures url != other ==> ServerAccount(ns, url) != ServerAccount(ns, other)
  {
    var a, b := ServerAccount(ns, url), ServerAccount(ns, other);
    assert a[|ns| + 7] == ':' && IndexAccount(ns)[|ns| + 7] == 's';
    assert a[|ns| + 8..] == url && b[|ns| + 8..] == other;
  }

  // ------------------------------------------------------------------ reading

  function Index(s: Store, ns: string): seq<string> {
    if IndexAccount(ns) in s && s[IndexAccount(ns)].Urls? then s[IndexAccount(ns)].urls else []
  }

  function Entry(s: Store, ns: string, url: string): Option<StoredSession> {
    var account := ServerAccount(ns, url);
    if account in s && s[account].Session? then Some(s[account].session) else None
  }

  /** What the listed servers' entries hold, in list order, passing over those that hold
      nothing. */
  function Listed(s: Store, ns: string, urls: seq<string>): seq<StoredSession> {
    if urls == [] then []
    else
      var n := |urls| - 1;
      var before := Listed(s, ns, urls[..n]);
      if Entry(s, ns, urls[n]).Some? then before + [Entry(s, ns, urls[n]).value] else before
  }

  /** What a cold start gets back. */
  function Loaded(s: Store, ns: string): seq<StoredSession> { Listed(s, ns, Index(s, ns)) }

  function AsLoad(sessions: seq<StoredSession>): SessionsLoad { if sessions == [] then Empty else Found(sessions) }

  // ------------------------------------------------------------------ writing

  /** Which of an operation's writes the keyring takes, and whether it could read
      the index; an index it can't read counts as an empty one. */
  datatype Luck = Luck(entry: bool, readable: bool, index: bool)

  function Listing(s: Store, ns: string, luck: Luck): seq<string> { if luck.readable then Index(s, ns) else [] }

  function Save(s: Store, ns: string, session: StoredSession, luck: Luck): (Store, SessionWrite) {
    if !luck.entry then (s, Unavailable)
    else
      var stored := s[ServerAccount(ns, session.baseUrl) := Session(session)];
      var urls := Listing(stored, ns, luck);
      if session.baseUrl in urls then (stored, Done)
      else if luck.index then (stored[IndexAccount(ns) := Urls(urls + [session.baseUrl])], Done)
      else (stored, Unavailable)
  }

  function Without(urls: seq<string>, url: string): seq<string> {
    if urls == [] then []
    else
      var before := Without(urls[..|urls| - 1], url);
      if urls[|urls| - 1] == url then before else before + [urls[|urls| - 1]]
  }

  function Forget(s: Store, ns: string, url: string, luck: Luck): (Store, SessionWrite) {
    if !luck.entry then (s, Unavailable)
    else
      var dropped := s - {ServerAccount(ns, url)};
      var urls := Listing(dropped, ns, luck);
      var kept := Without(urls, url);
      if |kept| == |urls| then (dropped, Done)
      else if !luck.index then (dropped, Unavailable)
      else if kept == [] then (dropped - {IndexAccount(ns)}, Done)
      else (dropped[IndexAccount(ns) := Urls(kept)], Done)
  }

  /** `adopt_legacy`: carry a sign-in from before the server list forward. */
  function Adopt(s: Store, ns: string, luck: Luck, delete: bool): (Store, SessionsLoad) {
    var legacy := LegacyAccount(ns);
    if legacy !in s || !s[legacy].Session? then (s, Empty)
    else
      var saved := Save(s, ns, s[legacy].session, luck).0;
      (if delete then saved - {legacy} else saved, Found([s[legacy].session]))
  }

  /** A start: `open` is whether the keyring could be read at all. */
  function Load(s: Store, ns: string, open: bool, luck: Luck, delete: bool): (Store, SessionsLoad) {
    if !open then (s, Unread)
    else if IndexAccount(ns) !in s then Adopt(s, ns, luck, delete) else (s, AsLoad(Loaded(s, ns)))
  }

  // ------------------------------------------------------------ an ordered map

  ghost predicate Distinct(urls: seq<string>) { forall i, j :: 0 <= i < j < |urls| ==> urls[i] != urls[j] }

  ghost predicate Tidy(s: Store, ns: string) {
    && Distinct(Index(s, ns))
    && (forall url :: Entry(s, ns, url).Some? ==> Entry(s, ns, url).value.baseUrl == url)
    && LegacyAccount(ns) !in s
  }

  /** Everybody's sessions but `url`'s, and `url`'s alone, in order. */
  function Others(sessions: seq<StoredSession>, url: string): seq<StoredSession> {
    if sessions == [] then []
    else
      var last := sessions[|sessions| - 1];
      var before := Others(sessions[..|sessions| - 1], url);
      if last.baseUrl == url then before else before + [last]
  }

  function Only(sessions: seq<StoredSession>, url: string): seq<StoredSession> {
    if sessions == [] then []
    else
      var last := sessions[|sessions| - 1];
      var before := Only(sessions[..|sessions| - 1], url);
      if last.baseUrl == url then before + [last] else before
  }

  lemma Appended(sessions: seq<StoredSession>, more: StoredSession, url: string)
    ensures Others(sessions + [more], url) ==
            if more.baseUrl == url then Others(sessions, url) else Others(sessions, url) + [more]
    ensures Only(sessions + [more], url) ==
            if more.baseUrl == url then Only(sessions, url) + [more] else Only(sessions, url)
  {
    assert (sessions + [more])[..|sessions|] == sessions;
  }

  /** What loads for one list of servers depends on the others' entries alone. */
  lemma {:induction false} ListedApart(s: Store, t: Store, ns: string, urls: seq<string>, url: string)
    requires forall u :: u != url ==> Entry(s, ns, u) == Entry(t, ns, u)
    requires forall u :: Entry(s, ns, u).Some? ==> Entry(s, ns, u).value.baseUrl == u
    requires forall u :: Entry(t, ns, u).Some? ==> Entry(t, ns, u).value.baseUrl == u
    ensures Others(Listed(s, ns, urls), url) == Others(Listed(t, ns, urls), url)
    ensures url !in urls ==> Listed(s, ns, urls) == Listed(t, ns, urls)
    decreases |urls|
  {
    if urls != [] {
      var n := |urls| - 1;
      var u := urls[n];
      ListedApart(s, t, ns, urls[..n], url);
      if Entry(s, ns, u).Some? {
        Appended(Listed(s, ns, urls[..n]), Entry(s, ns, u).value, url);
      }
      if Entry(t, ns, u).Some? {
        Appended(Listed(t, ns, urls[..n]), Entry(t, ns, u).value, url);
      }
    }
  }

  /** A listed server with an entry loads once; any other doesn't load. */
  lemma {:induction false} OnlyListed(s: Store, ns: string, urls: seq<string>, url: string)
    requires Distinct(urls)
    requires forall u :: Entry(s, ns, u).Some? ==> Entry(s, ns, u).value.baseUrl == u
    ensures Only(Listed(s, ns, urls), url) ==
            if url in urls && Entry(s, ns, url).Some? then [Entry(s, ns, url).value] else []
    ensures url !in urls || Entry(s, ns, url).None? ==> Others(Listed(s, ns, urls), url) == Listed(s, ns, urls)
    decreases |urls|
  {
    if urls != [] {
      var n := |urls| - 1;
      var u := urls[n];
      assert urls == urls[..n] + [u];
      OnlyListed(s, ns, urls[..n], url);
      if Entry(s, ns, u).Some? {
        Appended(Listed(s, ns, urls[..n]), Entry(s, ns, u).value, url);
      }
    }
  }

  lemma {:induction false} WithoutHas(urls: seq<string>, url: string, u: string)
    ensures u in Without(urls, url) <==> u in urls && u != url
    ensures |Without(urls, url)| <= |urls|
    ensures url !in urls ==> Without(urls, url) == urls
    ensures url in urls ==> |Without(urls, url)| < |urls|
    decreases |urls|
  {
    if urls != [] {
      var n := |urls| - 1;
      assert urls == urls[..n] + [urls[n]];
      WithoutHas(urls[..n], url, u);
    }
  }

  lemma {:induction false} WithoutDistinct(urls: seq<string>, url: string)
    requires Distinct(urls)
    ensures Distinct(Without(urls, url))
    decreases |urls|
  {
    if urls != [] {
      var n := |urls| - 1;
      WithoutDistinct(urls[..n], url);
      WithoutHas(urls[..n], url, urls[n]);
      assert urls[n] !in Without(urls[..n], url);
    }
  }

  /** Dropping a server's line from the list drops what it loads, and nothing else. */
  lemma {:induction false} ListedWithout(s: Store, ns: string, urls: seq<string>, url: string)
    requires forall u :: Entry(s, ns, u).Some? ==> Entry(s, ns, u).value.baseUrl == u
    ensures Listed(s, ns, Without(urls, url)) == Others(Listed(s, ns, urls), url)
    decreases |urls|
  {
    if urls != [] {
      var n := |urls| - 1;
      var u, rest := urls[n], Without(urls[..n], url);
      ListedWithout(s, ns, urls[..n], url);
      if u != url {
        assert (rest + [u])[..|rest|] == rest;
      }
      if Entry(s, ns, u).Some? {
        Appended(Listed(s, ns, urls[..n]), Entry(s, ns, u).value, url);
      }
    }
  }

  // ----------------------------------------------------------- what each call does

  lemma EntriesAfter(s: Store, t: Store, ns: string, url: string)
    requires forall account :: account != ServerAccount(ns, url) && account != IndexAccount(ns) ==>
               (account in s <==> account in t) && (account in s ==> s[account] == t[account])
    ensures forall u :: u != url ==> Entry(s, ns, u) == Entry(t, ns, u)
  {
    forall u | u != url ensures Entry(s, ns, u) == Entry(t, ns, u) {
      AccountsApart(ns, u, url);
    }
  }

  lemma {:induction false} ListedSame(s: Store, t: Store, ns: string, urls: seq<string>)
    requires forall u :: Entry(s, ns, u) == Entry(t, ns, u)
    ensures Listed(s, ns, urls) == Listed(t, ns, urls)
    decreases |urls|
  {
    if urls != [] {
      ListedSame(s, t, ns, urls[..|urls| - 1]);
    }
  }

  lemma SaveTidies(s: Store, ns: string, session: StoredSession, luck: Luck)
    requires Tidy(s, ns) && luck.entry
    ensures var t := Save(s, ns, session, luck).0;
            && Tidy(t, ns) && Entry(t, ns, session.baseUrl) == Some(session)
            && (forall u :: u != session.baseUrl ==> Entry(s, ns, u) == Entry(t, ns, u))
            && Index(t, ns) == (if session.baseUrl in Listing(s, ns, luck) || !luck.index then Index(s, ns)
                                else Listing(s, ns, luck) + [session.baseUrl])
  {
    AccountsApart(ns, session.baseUrl, session.baseUrl);
    EntriesAfter(s, Save(s, ns, session, luck).0, ns, session.baseUrl);
  }

  lemma SaveDone(s: Store, ns: string, session: StoredSession, luck: Luck)
    requires Tidy(s, ns) && Save(s, ns, session, luck).1 == Done
    ensures Only(Loaded(Save(s, ns, session, luck).0, ns), session.baseUrl) == [session]
  {
    var t := Save(s, ns, session, luck).0;
    SaveTidies(s, ns, session, luck);
    OnlyListed(t, ns, Index(t, ns), session.baseUrl);
  }

  lemma SaveAppends(s: Store, ns: string, session: StoredSession, luck: Luck)
    requires Tidy(s, ns) && luck.entry && luck.index && luck.readable && session.baseUrl !in Index(s, ns)
    ensures Loaded(Save(s, ns, session, luck).0, ns) == Loaded(s, ns) + [session]
  {
    var url, urls, t := session.baseUrl, Index(s, ns), Save(s, ns, session, luck).0;
    SaveTidies(s, ns, session, luck);
    ListedApart(s, t, ns, urls, url);
    assert (urls + [url])[..|urls|] == urls;
  }

  /** The others are spared unless the list couldn't be read, was written anew all the
      same, and there were others. */
  lemma SaveSparesExactlyWhen(s: Store, ns: string, session: StoredSession, luck: Luck)
    requires Tidy(s, ns)
    ensures var (t, url) := (Save(s, ns, session, luck).0, session.baseUrl);
            Others(Loaded(t, ns), url) == Others(Loaded(s, ns), url) <==>
            luck.readable || !luck.entry || !luck.index || Others(Loaded(s, ns), url) == []
  {
    var t, url, urls := Save(s, ns, session, luck).0, session.baseUrl, Index(s, ns);
    if luck.entry && !luck.readable && luck.index {
      UnreadableIndexForgets(s, ns, session);
      assert Others([session], url) == [] by {
        assert [session][..0] == [];
        assert Others([], url) == [];
      }
    } else if luck.entry {
      SaveTidies(s, ns, session, luck);
      if luck.index && url !in urls {
        SaveAppends(s, ns, session, luck);
        Appended(Loaded(s, ns), session, url);
      } else {
        ListedApart(s, t, ns, urls, url);
      }
    }
  }

  /** A save that says Unavailable changed nothing that loads, unless the list couldn't
      be read, and the token it wrote is a listed server's new one. */
  lemma UnavailableChangesNothingExactlyWhen(s: Store, ns: string, session: StoredSession, luck: Luck)
    requires Tidy(s, ns) && Save(s, ns, session, luck).1 == Unavailable
    ensures Loaded(Save(s, ns, session, luck).0, ns) == Loaded(s, ns) <==>
            luck.readable || !luck.entry || session.baseUrl !in Index(s, ns)
            || Entry(s, ns, session.baseUrl) == Some(session)
  {
    if luck.entry {
      var t, url, urls := Save(s, ns, session, luck).0, session.baseUrl, Index(s, ns);
      SaveTidies(s, ns, session, luck);
      if url !in urls {
        ListedApart(s, t, ns, urls, url);
      } else if Entry(s, ns, url) == Some(session) {
        ListedSame(s, t, ns, urls);
      } else {
        OnlyListed(s, ns, urls, url);
        OnlyListed(t, ns, urls, url);
      }
    }
  }

  /** A save, with anything refused: Done loads back exactly once, for a server that
      wasn't listed at the end; nobody else's token or order changes, and Unavailable
      changes nothing that loads, but for the cases with an unreadable list. */
  lemma SaveKeeps(s: Store, ns: string, session: StoredSession, luck: Luck)
    requires Tidy(s, ns)
    ensures var (t, answer) := Save(s, ns, session, luck);
            var url := session.baseUrl;
            && Tidy(t, ns)
            && (answer == Done ==> Only(Loaded(t, ns), url) == [session])
            && (answer == Done && luck.readable && url !in Index(s, ns) ==> Loaded(t, ns) == Loaded(s, ns) + [session])
            && (Others(Loaded(t, ns), url) == Others(Loaded(s, ns), url) <==>
                luck.readable || !luck.entry || !luck.index || Others(Loaded(s, ns), url) == [])
            && (answer == Unavailable ==>
                  (Loaded(t, ns) == Loaded(s, ns) <==>
                   luck.readable || !luck.entry || url !in Index(s, ns) || Entry(s, ns, url) == Some(session)))
  {
    assert Tidy(Save(s, ns, session, luck).0, ns) by {
      if luck.entry {
        SaveTidies(s, ns, session, luck);
      }
    }
    SaveSparesExactlyWhen(s, ns, session, luck);
    if Save(s, ns, session, luck).1 == Done {
      SaveDone(s, ns, session, luck);
      if luck.readable && session.baseUrl !in Index(s, ns) {
        SaveAppends(s, ns, session, luck);
      }
    } else {
      UnavailableChangesNothingExactlyWhen(s, ns, session, luck);
    }
  }

  lemma ForgetTidies(s: Store, ns: string, url: string, luck: Luck)
    requires Tidy(s, ns) && luck.entry
    ensures var t := Forget(s, ns, url, luck).0;
            && Tidy(t, ns) && Entry(t, ns, url).None?
            && (forall u :: u != url ==> Entry(s, ns, u) == Entry(t, ns, u))
            && (Index(t, ns) == Index(s, ns) || Index(t, ns) == Without(Index(s, ns), url))
  {
    AccountsApart(ns, url, url);
    EntriesAfter(s, Forget(s, ns, url, luck).0, ns, url);
    WithoutHas(Index(s, ns), url, url);
    WithoutDistinct(Index(s, ns), url);
  }

  /** A forget, with anything refused, the list unreadable or not: its server is gone
      from what loads and nobody else's token or order changes, or, exactly when its
      entry couldn't be deleted, nothing changes at all; Done means gone. */
  lemma ForgetDrops(s: Store, ns: string, url: string, luck: Luck)
    requires Tidy(s, ns)
    ensures var (t, answer) := Forget(s, ns, url, luck);
            && Tidy(t, ns)
            && (if luck.entry then Loaded(t, ns) == Others(Loaded(s, ns), url) else t == s)
            && (answer == Done ==> luck.entry)
  {
    if luck.entry {
      var t, urls := Forget(s, ns, url, luck).0, Index(s, ns);
      ForgetTidies(s, ns, url, luck);
      ListedApart(s, t, ns, urls, url);
      OnlyListed(t, ns, urls, url);
      ListedWithout(t, ns, urls, url);
    }
  }

  /** Forgetting the only server listed, with nothing refused, leaves nothing of the list
      behind, and no more accounts than before. */
  lemma LastForgetLeavesNothing(s: Store, ns: string, url: string)
    requires Index(s, ns) == [url]
    ensures var (t, answer) := Forget(s, ns, url, Luck(true, true, true));
            && answer == Done && IndexAccount(ns) !in t && ServerAccount(ns, url) !in t
            && forall account :: account in t ==> account in s && t[account] == s[account]
  {
    AccountsApart(ns, url, url);
    assert [url][..0] == [];
    assert Without([], url) == [];
  }

  /** With the index unreadable, and a write of it taken, every other server is
      dropped from what loads: reads have to be reliable. */
  lemma UnreadableIndexForgets(s: Store, ns: string, session: StoredSession)
    ensures Loaded(Save(s, ns, session, Luck(true, false, true)).0, ns) == [session]
  {
    AccountsApart(ns, session.baseUrl, session.baseUrl);
    var t := Save(s, ns, session, Luck(true, false, true)).0;
    assert Index(t, ns) == [session.baseUrl];
    assert [session.baseUrl][..0] == [];
    assert Listed(t, ns, []) == [];
  }

  /** A sign-in from before the server list is handed back whatever is refused,
      and the next start has it too unless its old entry was deleted although it
      could not be written anew. */
  lemma LegacyCarriesOver(s: Store, ns: string, luck: Luck, delete: bool, again: Luck, andAgain: bool)
    requires IndexAccount(ns) !in s && LegacyAccount(ns) in s && s[LegacyAccount(ns)].Session?
    ensures var (t, answer) := Load(s, ns, true, luck, delete);
            var session := s[LegacyAccount(ns)].session;
            && answer == Found([session])
            && (Load(t, ns, true, again, andAgain).1 == Found([session]) <==> (luck.entry && luck.index) || !delete)
  {
    var session := s[LegacyAccount(ns)].session;
    var t := Load(s, ns, true, luck, delete).0;
    AdoptedStore(s, ns, luck, delete);
    if luck.entry && luck.index {
      LoadsAlone(t, ns, session);
    }
  }

  /** What an adoption leaves: a list of the one server, if both writes went through, and
      otherwise none, with the old entry there or not. */
  lemma AdoptedStore(s: Store, ns: string, luck: Luck, delete: bool)
    requires IndexAccount(ns) !in s && LegacyAccount(ns) in s && s[LegacyAccount(ns)].Session?
    ensures var (t, session) := (Adopt(s, ns, luck, delete).0, s[LegacyAccount(ns)].session);
            && (if luck.entry && luck.index
                then IndexAccount(ns) in t && Index(t, ns) == [session.baseUrl] && Entry(t, ns, session.baseUrl) == Some(session)
                else IndexAccount(ns) !in t)
            && (if delete then LegacyAccount(ns) !in t
                else LegacyAccount(ns) in t && t[LegacyAccount(ns)] == s[LegacyAccount(ns)])
  {
    AccountsApart(ns, s[LegacyAccount(ns)].session.baseUrl, "");
  }

  lemma LoadsAlone(t: Store, ns: string, session: StoredSession)
    requires Index(t, ns) == [session.baseUrl] && Entry(t, ns, session.baseUrl) == Some(session)
    ensures Loaded(t, ns) == [session]
  {
    assert [session.baseUrl][..0] == [];
    assert Listed(t, ns, []) == [];
  }

  // -------------------------------------------------------------------- whole runs

  datatype Call = DoSave(session: StoredSession, luck: Luck) | DoForget(url: string, luck: Luck)

  function Run(ns: string, calls: seq<Call>): Store {
    if calls == [] then map[]
    else
      var s := Run(ns, calls[..|calls| - 1]);
      match calls[|calls| - 1]
      case DoSave(session, luck) => Save(s, ns, session, luck).0
      case DoForget(url, luck) => Forget(s, ns, url, luck).0
  }

  /** The session a caller may count on for `url`: the last one a save said Done
      to, unless a forget has deleted it since. */
  function Promised(ns: string, calls: seq<Call>, url: string): seq<StoredSession> {
    if calls == [] then []
    else
      var before := Promised(ns, calls[..|calls| - 1], url);
      match calls[|calls| - 1]
      case DoSave(session, luck) =>
        if session.baseUrl == url && Save(Run(ns, calls[..|calls| - 1]), ns, session, luck).1 == Done then [session]
        else before
      case DoForget(gone, luck) => if gone == url && luck.entry then [] else before
  }

  lemma {:induction false} OthersOnly(sessions: seq<StoredSession>, url: string, other: string)
    ensures Only(Others(sessions, url), other) == if url == other then [] else Only(sessions, other)
    decreases |sessions|
  {
    if sessions != [] {
      var n := |sessions| - 1;
      OthersOnly(sessions[..n], url, other);
      if sessions[n].baseUrl != url {
        Appended(Others(sessions[..n], url), sessions[n], other);
      }
    }
  }

  /** Each server loads exactly what was promised for it, once or not at all. */
  ghost predicate AsPromised(ns: string, calls: seq<Call>) {
    forall url :: Only(Loaded(Run(ns, calls), ns), url) == Promised(ns, calls, url)
  }

  /** A save that couldn't read the list and still wrote: over others, or, refused the
      list as well, a listed server's token that it then says it didn't keep. */
  predicate Spills(s: Store, ns: string, call: Call) {
    && call.DoSave? && call.luck.entry && !call.luck.readable
    && var url := call.session.baseUrl;
       if call.luck.index then Others(Loaded(s, ns), url) != []
       else url in Index(s, ns) && Entry(s, ns, url) != Some(call.session)
  }

  lemma {:induction false} RunIsTidy(ns: string, calls: seq<Call>)
    ensures Tidy(Run(ns, calls), ns)
    decreases |calls|
  {
    if calls == [] {
      AccountsApart(ns, ns, ns);
    } else {
      var n := |calls| - 1;
      RunIsTidy(ns, calls[..n]);
      match calls[n]
      case DoSave(session, luck) => SaveKeeps(Run(ns, calls[..n]), ns, session, luck);
      case DoForget(gone, luck) => ForgetDrops(Run(ns, calls[..n]), ns, gone, luck);
    }
  }

  /** Somebody else's session, and its server. */
  lemma {:induction false} AnotherLoads(sessions: seq<StoredSession>, url: string) returns (other: string)
    requires Others(sessions, url) != []
    ensures other != url && Only(sessions, other) != []
    decreases |sessions|
  {
    var n := |sessions| - 1;
    if sessions[n].baseUrl != url {
      other := sessions[n].baseUrl;
    } else {
      other := AnotherLoads(sessions[..n], url);
    }
  }

  lemma SaveAsPromised(ns: string, calls: seq<Call>, url: string)
    requires calls != [] && calls[|calls| - 1].DoSave? && AsPromised(ns, calls[..|calls| - 1])
    requires !Spills(Run(ns, calls[..|calls| - 1]), ns, calls[|calls| - 1])
    ensures Only(Loaded(Run(ns, calls), ns), url) == Promised(ns, calls, url)
  {
    var before, call := calls[..|calls| - 1], calls[|calls| - 1];
    var s, t := Run(ns, before), Run(ns, calls);
    RunIsTidy(ns, before);
    SaveKeeps(s, ns, call.session, call.luck);
    OthersOnly(Loaded(s, ns), call.session.baseUrl, url);
    OthersOnly(Loaded(t, ns), call.session.baseUrl, url);
  }

  lemma ForgetAsPromised(ns: string, calls: seq<Call>, url: string)
    requires calls != [] && calls[|calls| - 1].DoForget? && AsPromised(ns, calls[..|calls| - 1])
    ensures Only(Loaded(Run(ns, calls), ns), url) == Promised(ns, calls, url)
  {
    var before, call := calls[..|calls| - 1], calls[|calls| - 1];
    RunIsTidy(ns, before);
    ForgetDrops(Run(ns, before), ns, call.url, call.luck);
    OthersOnly(Loaded(Run(ns, before), ns), call.url, url);
  }

  lemma SpillBreaksPromise(ns: string, calls: seq<Call>) returns (url: string)
    requires calls != [] && AsPromised(ns, calls[..|calls| - 1])
    requires Spills(Run(ns, calls[..|calls| - 1]), ns, calls[|calls| - 1])
    ensures Only(Loaded(Run(ns, calls), ns), url) != Promised(ns, calls, url)
  {
    var before, call := calls[..|calls| - 1], calls[|calls| - 1];
    var s, t := Run(ns, before), Run(ns, calls);
    RunIsTidy(ns, before);
    url := call.session.baseUrl;
    if call.luck.index {
      UnreadableIndexForgets(s, ns, call.session);
      url := AnotherLoads(Loaded(s, ns), url);
      assert Only([call.session], url) == [] by {
        assert [call.session][..0] == [];
        assert Only([], url) == [];
      }
    } else {
      SaveTidies(s, ns, call.session, call.luck);
      OnlyListed(s, ns, Index(s, ns), url);
      OnlyListed(t, ns, Index(t, ns), url);
    }
  }

  lemma PromisedExactlyUnlessSpilt(ns: string, calls: seq<Call>)
    requires calls != [] && AsPromised(ns, calls[..|calls| - 1])
    ensures AsPromised(ns, calls) <==> !Spills(Run(ns, calls[..|calls| - 1]), ns, calls[|calls| - 1])
  {
    if Spills(Run(ns, calls[..|calls| - 1]), ns, calls[|calls| - 1]) {
      var url := SpillBreaksPromise(ns, calls);
    } else {
      forall url ensures Only(Loaded(Run(ns, calls), ns), url) == Promised(ns, calls, url) {
        if calls[|calls| - 1].DoSave? {
          SaveAsPromised(ns, calls, url);
        } else {
          ForgetAsPromised(ns, calls, url);
        }
      }
    }
  }

  ghost predicate SpillsAt(ns: string, calls: seq<Call>, k: nat)
    requires k < |calls|
  {
    Spills(Run(ns, calls[..k]), ns, calls[k])
  }

  lemma {:induction false} PromisedUntilSpilt(ns: string, calls: seq<Call>, k: nat)
    requires k <= |calls| && forall j: nat :: j < k ==> !SpillsAt(ns, calls, j)
    ensures AsPromised(ns, calls[..k])
    decreases k
  {
    if k == 0 {
      AccountsApart(ns, ns, ns);
    } else {
      PromisedUntilSpilt(ns, calls, k - 1);
      assert calls[..k][..k - 1] == calls[..k - 1];
      assert !SpillsAt(ns, calls, k - 1);
      PromisedExactlyUnlessSpilt(ns, calls[..k]);
    }
  }

  /** Over any run of saves and forgets, with reads and writes refused anywhere: at every
      moment each server loads exactly what was promised for it, if and only if no save
      that couldn't read the list wrote over somebody. */
  lemma LoadsWhatWasPromised(ns: string, calls: seq<Call>)
    ensures (forall k :: 0 <= k <= |calls| ==> AsPromised(ns, calls[..k])) <==>
            (forall k: nat :: k < |calls| ==> !SpillsAt(ns, calls, k))
  {
    if k: nat :| k < |calls| && SpillsAt(ns, calls, k) {
      assert calls[..k + 1][..k] == calls[..k];
      if AsPromised(ns, calls[..k]) {
        PromisedExactlyUnlessSpilt(ns, calls[..k + 1]);
      }
    } else {
      forall k | 0 <= k <= |calls| ensures AsPromised(ns, calls[..k]) {
        PromisedUntilSpilt(ns, calls, k);
      }
    }
  }

  /** The list of servers as the calls leave it: a server is listed at the end, keeps its
      line until a forget drops it, and loses it to a save that couldn't read the list. */
  function Lines(calls: seq<Call>): seq<string> {
    if calls == [] then []
    else
      var before, luck := Lines(calls[..|calls| - 1]), calls[|calls| - 1].luck;
      var read := if luck.readable then before else [];
      match calls[|calls| - 1]
      case DoSave(session, _) =>
        if luck.entry && luck.index && session.baseUrl !in read then read + [session.baseUrl] else before
      case DoForget(url, _) =>
        if luck.entry && luck.index && url in read then Without(before, url) else before
  }

  lemma {:induction false} LinesAreTheIndex(ns: string, calls: seq<Call>)
    ensures Index(Run(ns, calls), ns) == Lines(calls)
    decreases |calls|
  {
    if calls == [] {
      AccountsApart(ns, ns, ns);
    } else {
      var n := |calls| - 1;
      var s := Run(ns, calls[..n]);
      LinesAreTheIndex(ns, calls[..n]);
      match calls[n]
      case DoSave(session, luck) => SaveLines(s, ns, session, luck);
      case DoForget(gone, luck) => ForgetLines(s, ns, gone, luck);
    }
  }

  lemma SaveLines(s: Store, ns: string, session: StoredSession, luck: Luck)
    ensures var read := Listing(s, ns, luck);
            Index(Save(s, ns, session, luck).0, ns) ==
            if luck.entry && luck.index && session.baseUrl !in read then read + [session.baseUrl] else Index(s, ns)
  {
    AccountsApart(ns, session.baseUrl, session.baseUrl);
  }

  lemma ForgetLines(s: Store, ns: string, url: string, luck: Luck)
    ensures var read := Listing(s, ns, luck);
            Index(Forget(s, ns, url, luck).0, ns) ==
            if luck.entry && luck.index && url in read then Without(Index(s, ns), url) else Index(s, ns)
  {
    AccountsApart(ns, url, url);
    WithoutHas(Listing(s, ns, luck), url, url);
  }

  /** What was promised for each of `urls`, in order. */
  function PromisedFor(ns: string, calls: seq<Call>, urls: seq<string>): seq<StoredSession> {
    if urls == [] then []
    else PromisedFor(ns, calls, urls[..|urls| - 1]) + Promised(ns, calls, urls[|urls| - 1])
  }

  lemma {:induction false} ListedAsPromised(ns: string, calls: seq<Call>, urls: seq<string>)
    requires AsPromised(ns, calls) && Tidy(Run(ns, calls), ns)
    requires forall k :: 0 <= k < |urls| ==> urls[k] in Index(Run(ns, calls), ns)
    ensures Listed(Run(ns, calls), ns, urls) == PromisedFor(ns, calls, urls)
    decreases |urls|
  {
    if urls != [] {
      var n, s := |urls| - 1, Run(ns, calls);
      ListedAsPromised(ns, calls, urls[..n]);
      OnlyListed(s, ns, Index(s, ns), urls[n]);
      assert Promised(ns, calls, urls[n]) == Only(Loaded(s, ns), urls[n]);
    }
  }

  /** And the whole list that loads, in its order: after any run without such a save, what
      was promised for each server, by the lines the calls left. */
  lemma LoadsInOrder(ns: string, calls: seq<Call>)
    requires forall k: nat :: k < |calls| ==> !SpillsAt(ns, calls, k)
    ensures Loaded(Run(ns, calls), ns) == PromisedFor(ns, calls, Lines(calls))
  {
    PromisedUntilSpilt(ns, calls, |calls|);
    assert calls[..|calls|] == calls;
    RunIsTidy(ns, calls);
    LinesAreTheIndex(ns, calls);
    ListedAsPromised(ns, calls, Lines(calls));
  }

  /** So what a start gets: after any run without such a save, a keyring that can be read
      answers with all of it, or says that there is nothing, and is left as it is; one that
      can't be read says so. */
  lemma StartLoadsAll(ns: string, calls: seq<Call>, open: bool, luck: Luck, delete: bool)
    requires forall k: nat :: k < |calls| ==> !SpillsAt(ns, calls, k)
    ensures var (promised, s) := (PromisedFor(ns, calls, Lines(calls)), Run(ns, calls));
            Load(s, ns, open, luck, delete) ==
            (s, if !open then Unread else if promised == [] then Empty else Found(promised))
  {
    LoadsInOrder(ns, calls);
    RunIsTidy(ns, calls);
    var s := Run(ns, calls);
    if IndexAccount(ns) !in s {
      LinesAreTheIndex(ns, calls);
      assert Lines(calls) == [];
    }
  }

  // ------------------------------------------------------------------- the object

  /** The keyring as the client drives it. `luck` says what it refuses. */
  class Secrets {
    var store: Store

    method SaveIn(ns: string, session: StoredSession, luck: Luck) returns (answer: SessionWrite)
      modifies this
      ensures (store, answer) == Save(old(store), ns, session, luck)
    {
      if !luck.entry {
        return Unavailable;
      }
      store := store[ServerAccount(ns, session.baseUrl) := Session(session)];
      var urls := Listing(store, ns, luck);
      if session.baseUrl in urls {
        return Done;
      }
      urls := urls + [session.baseUrl];
      if !luck.index {
        return Unavailable;
      }
      store := store[IndexAccount(ns) := Urls(urls)];
      return Done;
    }

    method ForgetIn(ns: string, url: string, luck: Luck) returns (answer: SessionWrite)
      modifies this
      ensures (store, answer) == Forget(old(store), ns, url, luck)
    {
      if !luck.entry {
        return Unavailable;
      }
      store := store - {ServerAccount(ns, url)};
      var urls := Listing(store, ns, luck);
      var kept := [];
      for i := 0 to |urls|
        invariant kept == Without(urls[..i], url)
      {
        assert urls[..i + 1][..i] == urls[..i];
        if urls[i] != url {
          kept := kept + [urls[i]];
        }
      }
      assert urls[..|urls|] == urls;
      if |kept| == |urls| {
        return Done;
      }
      if !luck.index {
        return Unavailable;
      }
      store := if kept == [] then store - {IndexAccount(ns)} else store[IndexAccount(ns) := Urls(kept)];
      return Done;
    }

    method LoadIn(ns: string, open: bool, luck: Luck, delete: bool) returns (answer: SessionsLoad)
      modifies this
      ensures (store, answer) == Load(old(store), ns, open, luck, delete)
    {
      if !open {
        return Unread;
      }
      if IndexAccount(ns) !in store {
        answer := AdoptLegacy(ns, luck, delete);
        return;
      }
      var urls := Index(store, ns);
      var sessions := [];
      for i := 0 to |urls|
        invariant sessions == Listed(store, ns, urls[..i])
      {
        assert urls[..i + 1][..i] == urls[..i];
        var held := Entry(store, ns, urls[i]);
        if held.Some? {
          sessions := sessions + [held.value];
        }
      }
      assert urls[..|urls|] == urls;
      answer := if sessions == [] then Empty else Found(sessions);
    }

    method AdoptLegacy(ns: string, luck: Luck, delete: bool) returns (answer: SessionsLoad)
      modifies this
      ensures (store, answer) == Adopt(old(store), ns, luck, delete)
    {
      var legacy := LegacyAccount(ns);
      if legacy !in store || !store[legacy].Session? {
        return Empty;
      }
      var session := store[legacy].session;
      var _ := SaveIn(ns, session, luck);
      if delete {
        store := store - {legacy};
      }
      return Found([session]);
    }
  }
}
