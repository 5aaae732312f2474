/**
 The `Exec=` line of a desktop entry Linger writes for itself
 (client/src-tauri/src/desktop_entry.rs), against the section "The Exec key" of
 the freedesktop Desktop Entry Specification.
 */
module ExecLine {
  import opened Common

  const GBM := "WEBKIT_DMABUF_RENDERER_DISABLE_GBM"
  const NV_EXPLICIT_SYNC := "__NV_DISABLE_EXPLICIT_SYNC"
  const BACKEND := "LINGER_LINUX_BACKEND"
  const GDK_GL := "GDK_GL"
  const KEYS := [GBM, NV_EXPLICIT_SYNC, BACKEND, GDK_GL]

  // ------------------------------------------------------------------- quoting

  function Replace(s: string, c: char, with: string): string {
    if s == "" then "" else (if s[0] == c then with else [s[0]]) + Replace(s[1..], c, with)
  }

  predicate Special(c: char) {
    c in {' ', '\t', '\\', '"', '\'', '>', '<', '~', '|', '&', ';', '$', '*', '?', '#', '(', ')'}
  }

  predicate NeedsQuotes(path: string) { '`' in path || exists i :: 0 <= i < |path| && Special(path[i]) }

  function QuoteExecArg(path: string): Option<string> {
    if path == "" || '\n' in path || '\r' in path || '\0' in path then None
    else
      var quoted :=
        if NeedsQuotes(path) then
          var escaped := Replace(Replace(Replace(Replace(path, '\\', "\\\\"), '"', "\\\""), '$', "\\$"), '`', "\\`");
          "\"" + escaped + "\""
        else path;
      Some(Replace(quoted, '%', "%%"))
  }

  predicate TokenChar(c: char) {
    'a' <= c <= 'z' || 'A' <= c <= 'Z' || '0' <= c <= '9' || c in {'_', '-', '.', '+'}
  }

  predicate SimpleToken(raw: string) { raw != "" && forall i :: 0 <= i < |raw| ==> TokenChar(raw[i]) }

  /** The assignment kept for `key`: none for an unset or unsafe value, nor for a
      workaround at its default. */
  function Repeated(key: string, chosen: Option<string>): seq<string> {
    if chosen.None? || !SimpleToken(chosen.value) || (key != BACKEND && chosen.value == "1") then []
    else [key + "=" + chosen.value]
  }

  function Parts(lookup: string -> Option<string>, keys: seq<string>): seq<string> {
    if keys == [] then [] else Parts(lookup, keys[..|keys| - 1]) + Repeated(keys[|keys| - 1], lookup(keys[|keys| - 1]))
  }

  /** Each part followed by a space. */
  function Spaced(parts: seq<string>): string { if parts == [] then "" else parts[0] + " " + Spaced(parts[1..]) }

  method EnvPrefix(lookup: string -> Option<string>) returns (prefix: string)
    ensures prefix == Spaced(Parts(lookup, KEYS))
  {
    var parts: seq<string> := [];
    for i := 0 to |KEYS|
      invariant parts == Parts(lookup, KEYS[..i])
    {
      assert KEYS[..i + 1][..i] == KEYS[..i];
      var key := KEYS[i];
      var raw := lookup(key);
      if raw.None? || !SimpleToken(raw.value) {
        continue;
      }
      if key != BACKEND && raw.value == "1" {
        continue;
      }
      parts := parts + [key + "=" + raw.value];
    }
    assert KEYS[..|KEYS|] == KEYS;
    prefix := Spaced(parts);
  }

  function Line(path: string, lookup: string -> Option<string>): Option<string> {
    var quoted := QuoteExecArg(path);
    if quoted.None? then None
    else
      var prefix := Spaced(Parts(lookup, KEYS));
      if prefix == "" then quoted else Some("env " + prefix + quoted.value)
  }

  method BuildLine(path: string, lookup: string -> Option<string>) returns (line: Option<string>)
    ensures line == Line(path, lookup)
  {
    var quoted := QuoteExecArg(path);
    if quoted.None? {
      return None;
    }
    var prefix := EnvPrefix(lookup);
    line := if prefix == "" then quoted else Some("env " + prefix + quoted.value);
  }

  // ------------------------------------------------------- reading a line back

  datatype Piece = Piece(arg: string, rest: string) | Broken

  /** The characters an unquoted argument may not have. */
  predicate Reserved(c: char) { c in " \t\n\"'\\><~|&;$*?#()`" }

  predicate Escapable(c: char) { c in {'"', '`', '$', '\\'} }

  /** An unquoted argument, up to a space: no reserved character may be in it. */
  function Unquoted(s: string): Piece {
    if s == "" || s[0] == ' ' then Piece("", s)
    else if Reserved(s[0]) then Broken
    else
      var more := Unquoted(s[1..]);
      if more.Broken? then Broken else Piece([s[0]] + more.arg, more.rest)
  }

  /** The rest of a quoted argument, after its opening quote. A double quote, backtick,
      dollar sign or backslash has to have a backslash in front of it. */
  function Quoted(s: string): Piece
    decreases |s|
  {
    if s == "" then Broken
    else if s[0] == '"' then Piece("", s[1..])
    else if s[0] == '\\' then
      if |s| < 2 || !Escapable(s[1]) then Broken
      else
        var more := Quoted(s[2..]);
        if more.Broken? then Broken else Piece([s[1]] + more.arg, more.rest)
    else if Escapable(s[0]) then Broken
    else
      var more := Quoted(s[1..]);
      if more.Broken? then Broken else Piece([s[0]] + more.arg, more.rest)
  }

  function FirstArg(s: string): (piece: Piece)
    ensures piece.Piece? ==> |piece.rest| <= |s|
  {
    var piece := if s != "" && s[0] == '"' then Quoted(s[1..]) else Unquoted(s);
    if piece.Piece? && |piece.rest| <= |s| then piece else Broken
  }

  /** Undo the quoting: the line's arguments, separated by spaces. */
  function Split(line: string): Option<seq<string>>
    decreases |line|
  {
    var piece := FirstArg(line);
    if piece.Broken? then None
    else if piece.rest == "" then Some([piece.arg])
    else if piece.rest[0] != ' ' then None
    else
      var more := Split(piece.rest[1..]);
      if more.None? then None else Some([piece.arg] + more.value)
  }

  /** Read `%%` as `%`; any other `%` would be a field code. */
  function Percents(arg: string): Option<string> {
    if arg == "" then Some("")
    else if arg[0] != '%' then
      var more := Percents(arg[1..]);
      if more.None? then None else Some([arg[0]] + more.value)
    else if |arg| < 2 || arg[1] != '%' then None
    else
      var more := Percents(arg[2..]);
      if more.None? then None else Some("%" + more.value)
  }

  function AllPercents(args: seq<string>): Option<seq<string>> {
    if args == [] then Some([])
    else
      var first, more := Percents(args[0]), AllPercents(args[1..]);
      if first.None? || more.None? then None else Some([first.value] + more.value)
  }

  function Read(line: string): Option<seq<string>> {
    var args := Split(line);
    if args.None? then None else AllPercents(args.value)
  }

  // --------------------------------------------- one escape instead of a chain

  function EscapeOne(c: char): string { if Escapable(c) then ['\\', c] else [c] }

  function Escape(s: string): string { if s == "" then "" else EscapeOne(s[0]) + Escape(s[1..]) }

  function Chain(s: string): string {
    Replace(Replace(Replace(Replace(s, '\\', "\\\\"), '"', "\\\""), '$', "\\$"), '`', "\\`")
  }

  lemma {:induction false} ReplaceJoins(a: string, b: string, c: char, with: string)
    ensures Replace(a + b, c, with) == Replace(a, c, with) + Replace(b, c, with)
  {
    if a == "" {
      assert a + b == b;
    } else {
      assert (a + b)[1..] == a[1..] + b;
      ReplaceJoins(a[1..], b, c, with);
    }
  }

  lemma ChainJoins(a: string, b: string)
    ensures Chain(a + b) == Chain(a) + Chain(b)
  {
    ReplaceJoins(a, b, '\\', "\\\\");
    var a1, b1 := Replace(a, '\\', "\\\\"), Replace(b, '\\', "\\\\");
    ReplaceJoins(a1, b1, '"', "\\\"");
    var a2, b2 := Replace(a1, '"', "\\\""), Replace(b1, '"', "\\\"");
    ReplaceJoins(a2, b2, '$', "\\$");
    ReplaceJoins(Replace(a2, '$', "\\$"), Replace(b2, '$', "\\$"), '`', "\\`");
  }

  lemma ReplaceOne(d: char, c: char, with: string)
    ensures Replace([d], c, with) == if d == c then with else [d]
  {
    assert [d][1..] == "";
  }

  lemma ReplaceTwo(d: char, e: char, c: char, with: string)
    requires d != c && e != c
    ensures Replace([d, e], c, with) == [d, e]
  {
    assert [d, e][1..] == [e];
    ReplaceOne(e, c, with);
  }

  lemma ChainOne(d: char)
    ensures Chain([d]) == EscapeOne(d)
  {
    ReplaceOne(d, '\\', "\\\\");
    ReplaceOne(d, '"', "\\\"");
    ReplaceOne(d, '$', "\\$");
    ReplaceOne(d, '`', "\\`");
    if d == '\\' {
      ReplaceTwo('\\', '\\', '"', "\\\"");
      ReplaceTwo('\\', '\\', '$', "\\$");
      ReplaceTwo('\\', '\\', '`', "\\`");
    } else if d == '"' {
      ReplaceTwo('\\', '"', '$', "\\$");
      ReplaceTwo('\\', '"', '`', "\\`");
    } else if d == '$' {
      ReplaceTwo('\\', '$', '`', "\\`");
    }
  }

  /** The chained replaces, backslash first, are one escape of each character. */
  lemma {:induction false} ChainIsEscape(s: string)
    ensures Chain(s) == Escape(s)
  {
    if s != "" {
      assert s == [s[0]] + s[1..];
      ChainJoins([s[0]], s[1..]);
      ChainOne(s[0]);
      ChainIsEscape(s[1..]);
    }
  }

  // --------------------------------------------------------------- round trips

  function Doubled(s: string): string { Replace(s, '%', "%%") }

  lemma {:induction false} DoublesEscaped(s: string)
    ensures Doubled(Escape(s)) == Escape(Doubled(s))
  {
    if s != "" {
      DoublesEscaped(s[1..]);
      ReplaceJoins(EscapeOne(s[0]), Escape(s[1..]), '%', "%%");
      ReplaceOne(s[0], '%', "%%");
      if Escapable(s[0]) {
        ReplaceTwo('\\', s[0], '%', "%%");
      }
      if s[0] == '%' {
        assert Doubled(s)[1..][1..] == Doubled(s[1..]);
        assert Doubled(s)[1..] == "%" + Doubled(s[1..]);
      } else {
        assert Doubled(s)[1..] == Doubled(s[1..]);
      }
    }
  }

  lemma {:induction false} QuotedReads(s: string, rest: string)
    ensures Quoted(Escape(s) + "\"" + rest) == Piece(s, rest)
  {
    var text := Escape(s) + "\"" + rest;
    if s == "" {
      assert text[1..] == rest;
    } else {
      QuotedReads(s[1..], rest);
      var tail := Escape(s[1..]) + "\"" + rest;
      assert text == EscapeOne(s[0]) + tail;
      if Escapable(s[0]) {
        assert text[2..] == tail;
      } else {
        assert text[1..] == tail;
      }
      assert [s[0]] + s[1..] == s;
    }
  }

  lemma {:induction false} UnquotedReads(s: string, rest: string)
    requires forall i :: 0 <= i < |s| ==> !Reserved(s[i])
    requires rest == "" || rest[0] == ' '
    ensures Unquoted(s + rest) == Piece(s, rest)
  {
    if s == "" {
      assert s + rest == rest;
    } else {
      assert (s + rest)[1..] == s[1..] + rest;
      UnquotedReads(s[1..], rest);
      assert [s[0]] + s[1..] == s;
    }
  }

  lemma {:induction false} PercentsUndo(s: string)
    ensures Percents(Doubled(s)) == Some(s)
  {
    if s != "" {
      PercentsUndo(s[1..]);
      var d := Doubled(s);
      if s[0] == '%' {
        assert d[2..] == Doubled(s[1..]);
      } else {
        assert d[1..] == Doubled(s[1..]);
      }
      assert [s[0]] + s[1..] == s;
    }
  }

  lemma {:induction false} DoubledHas(s: string, c: char)
    ensures c in Doubled(s) <==> c in s
  {
    if s != "" {
      assert s == [s[0]] + s[1..];
      DoubledHas(s[1..], c);
    }
  }

  lemma QuotedText(path: string)
    requires QuoteExecArg(path).Some? && NeedsQuotes(path)
    ensures QuoteExecArg(path).value == "\"" + Escape(Doubled(path)) + "\""
  {
    ChainIsEscape(path);
    ReplaceJoins("\"" + Escape(path), "\"", '%', "%%");
    ReplaceJoins("\"", Escape(path), '%', "%%");
    ReplaceOne('"', '%', "%%");
    DoublesEscaped(path);
  }

  lemma QuotedSplits(s: string)
    ensures Split("\"" + Escape(s) + "\"") == Some([s])
  {
    var text := "\"" + Escape(s) + "\"";
    QuotedReads(s, "");
    assert text[1..] == Escape(s) + "\"" + "";
  }

  lemma PathSplits(path: string)
    requires QuoteExecArg(path).Some?
    ensures Split(QuoteExecArg(path).value) == Some([Doubled(path)])
  {
    var doubled := Doubled(path);
    if NeedsQuotes(path) {
      QuotedText(path);
      QuotedSplits(doubled);
    } else {
      forall i | 0 <= i < |doubled| ensures !Reserved(doubled[i]) {
        DoubledHas(path, doubled[i]);
        assert doubled[i] in path;
      }
      UnquotedReads(doubled, "");
      assert doubled + "" == doubled;
    }
  }

  /** The quoted path is one argument, which reads back as the path. */
  lemma PathReads(path: string)
    requires QuoteExecArg(path).Some?
    ensures Read(QuoteExecArg(path).value) == Some([path])
    ensures QuoteExecArg(path).value != ""
  {
    PathSplits(path);
    PercentsUndo(path);
    OnePercents(Doubled(path));
  }

  lemma OnePercents(arg: string)
    requires Percents(arg).Some?
    ensures AllPercents([arg]) == Some([Percents(arg).value])
  {
    var none: seq<string> := [];
    assert [arg][1..] == none && [arg][0] == arg && AllPercents(none) == Some(none);
    assert [Percents(arg).value] + none == [Percents(arg).value];
  }

  /** A word in front, free of reserved characters and `%`, is one more argument. */
  lemma WordReads(word: string, rest: string)
    requires word != "" && forall i :: 0 <= i < |word| ==> !Reserved(word[i]) && word[i] != '%'
    requires Read(rest).Some?
    ensures Read(word + " " + rest) == Some([word] + Read(rest).value)
  {
    var line := word + " " + rest;
    assert line == word + (" " + rest);
    UnquotedReads(word, " " + rest);
    assert (" " + rest)[1..] == rest;
    assert line[0] == word[0];
    PlainPercents(word);
    assert Split(line) == Some([word] + Split(rest).value);
    assert ([word] + Split(rest).value)[1..] == Split(rest).value;
  }

  lemma {:induction false} PlainPercents(word: string)
    requires '%' !in word
    ensures Percents(word) == Some(word)
  {
    if word != "" {
      PlainPercents(word[1..]);
      assert word == [word[0]] + word[1..];
    }
  }

  predicate Wordy(part: string) { part != "" && forall i :: 0 <= i < |part| ==> !Reserved(part[i]) && part[i] != '%' }

  lemma SpacedHead(parts: seq<string>, rest: string)
    requires parts != []
    ensures Spaced(parts) + rest == parts[0] + " " + (Spaced(parts[1..]) + rest)
  {
  }

  lemma {:induction false} SpacedReads(parts: seq<string>, rest: string)
    requires forall k :: 0 <= k < |parts| ==> Wordy(parts[k])
    requires Read(rest).Some?
    ensures Read(Spaced(parts) + rest) == Some(parts + Read(rest).value)
  {
    if parts == [] {
      assert Spaced(parts) + rest == rest && parts + Read(rest).value == Read(rest).value;
    } else {
      SpacedReads(parts[1..], rest);
      var tail := Spaced(parts[1..]) + rest;
      SpacedHead(parts, rest);
      assert Wordy(parts[0]);
      WordReads(parts[0], tail);
      assert [parts[0]] + (parts[1..] + Read(rest).value) == parts + Read(rest).value;
    }
  }

  predicate KeyLike(key: string) {
    key != "" && forall i :: 0 <= i < |key| ==> 'A' <= key[i] <= 'Z' || key[i] == '_'
  }

  lemma WorkaroundsAreKeyLike()
    ensures KeyLike(GBM) && KeyLike(NV_EXPLICIT_SYNC)
  {
  }

  lemma OthersAreKeyLike()
    ensures KeyLike(BACKEND) && KeyLike(GDK_GL)
  {
  }

  lemma KeysAreKeyLike()
    ensures forall k :: 0 <= k < |KEYS| ==> KeyLike(KEYS[k])
  {
    WorkaroundsAreKeyLike();
    OthersAreKeyLike();
  }

  lemma PlainIsFree(c: char)
    requires TokenChar(c) || 'A' <= c <= 'Z' || c == '_' || c == '='
    ensures !Reserved(c) && c != '%'
  {
  }

  lemma RepeatedIsWordy(key: string, chosen: Option<string>)
    requires KeyLike(key)
    ensures Repeated(key, chosen) != [] ==> Wordy(Repeated(key, chosen)[0])
  {
    if Repeated(key, chosen) != [] {
      var part := key + "=" + chosen.value;
      forall i | 0 <= i < |part| ensures !Reserved(part[i]) && part[i] != '%' {
        PlainIsFree(part[i]);
      }
    }
  }

  lemma {:induction false} PartsAreWords(lookup: string -> Option<string>, keys: seq<string>)
    requires forall k :: 0 <= k < |keys| ==> KeyLike(keys[k])
    ensures forall k :: 0 <= k < |Parts(lookup, keys)| ==> Wordy(Parts(lookup, keys)[k])
    decreases |keys|
  {
    if keys != [] {
      PartsAreWords(lookup, keys[..|keys| - 1]);
      RepeatedIsWordy(keys[|keys| - 1], lookup(keys[|keys| - 1]));
    }
  }

  lemma SpacedEmpty(parts: seq<string>)
    ensures Spaced(parts) == "" <==> parts == []
  {
  }

  /** Every line reads back as `env`, the assignments kept and the path, or as the path alone. */
  lemma LineReadsBack(path: string, lookup: string -> Option<string>)
    requires Line(path, lookup).Some?
    ensures var parts := Parts(lookup, KEYS);
            Read(Line(path, lookup).value) == Some(if parts == [] then [path] else ["env"] + parts + [path])
  {
    var parts, quoted := Parts(lookup, KEYS), QuoteExecArg(path).value;
    KeysAreKeyLike();
    PartsAreWords(lookup, KEYS);
    PathReads(path);
    SpacedEmpty(parts);
    SpacedReads(parts, quoted);
    if parts != [] {
      EnvReads(Spaced(parts), quoted);
      assert ["env"] + (parts + [path]) == ["env"] + parts + [path];
    }
  }

  lemma EnvReads(prefix: string, quoted: string)
    requires Read(prefix + quoted).Some?
    ensures Read("env " + prefix + quoted) == Some(["env"] + Read(prefix + quoted).value)
  {
    var tail := prefix + quoted;
    assert "env " + prefix + quoted == "env" + " " + tail;
    assert "env"[0] == 'e' && "env"[1] == 'n' && "env"[2] == 'v';
    PlainIsFree('e');
    PlainIsFree('n');
    PlainIsFree('v');
    WordReads("env", tail);
  }

  // -------------------------------------------------------- the choices, again

  /** What a list of assignments says of `key`. */
  function Assigned(parts: seq<string>, key: string): Option<string> {
    if parts == [] then None
    else
      var last := parts[|parts| - 1];
      if key + "=" <= last then Some(last[|key| + 1..]) else Assigned(parts[..|parts| - 1], key)
  }

  lemma KeyMatches(key: string, other: string, value: string)
    requires KeyLike(key) && KeyLike(other)
    ensures key + "=" <= other + "=" + value <==> key == other
  {
    var start, part := key + "=", other + "=" + value;
    var n := if |key| < |other| then |key| else |other|;
    if start <= part {
      assert start[n] == part[n];
      assert start[..|key|] == key && part[..|other|] == other;
    }
  }

  lemma {:induction false} AssignedBack(lookup: string -> Option<string>, keys: seq<string>, key: string)
    requires KeyLike(key) && forall k :: 0 <= k < |keys| ==> KeyLike(keys[k])
    ensures Assigned(Parts(lookup, keys), key) ==
            if key in keys && Repeated(key, lookup(key)) != [] then lookup(key) else None
    decreases |keys|
  {
    if keys != [] {
      var n := |keys| - 1;
      var before, more := Parts(lookup, keys[..n]), Repeated(keys[n], lookup(keys[n]));
      AssignedBack(lookup, keys[..n], key);
      assert keys == keys[..n] + [keys[n]];
      if more != [] {
        var value := lookup(keys[n]).value;
        KeyMatches(key, keys[n], value);
        assert (before + more)[..|before|] == before;
        assert (keys[n] + "=" + value)[|keys[n]| + 1..] == value;
      } else {
        assert before + more == before;
      }
    }
  }

  lemma {:induction false} PartsAgree(f: string -> Option<string>, g: string -> Option<string>, keys: seq<string>)
    requires forall k :: 0 <= k < |keys| ==> Repeated(keys[k], f(keys[k])) == Repeated(keys[k], g(keys[k]))
    ensures Parts(f, keys) == Parts(g, keys)
    decreases |keys|
  {
    if keys != [] {
      PartsAgree(f, g, keys[..|keys| - 1]);
    }
  }

  /** The choices among a line's arguments: what stands between `env` and the program. */
  function Choices(args: seq<string>): seq<string> { if |args| < 2 then [] else args[1..|args| - 1] }

  /** The line, read back: its arguments are the choices kept, around the program. */
  lemma ChoicesRead(path: string, lookup: string -> Option<string>)
    requires Line(path, lookup).Some?
    ensures Read(Line(path, lookup).value).Some?
    ensures var args := Read(Line(path, lookup).value).value;
            Choices(args) == Parts(lookup, KEYS) && args != [] && args[|args| - 1] == path
  {
    var parts := Parts(lookup, KEYS);
    LineReadsBack(path, lookup);
    if parts != [] {
      var args := ["env"] + parts + [path];
      assert args[1..|args| - 1] == parts;
    }
  }

  /** Building the line again from what reading it gives, its program and the choices
      in front of it, gives the same line. */
  lemma RebuiltIsTheSame(path: string, lookup: string -> Option<string>)
    requires Line(path, lookup).Some?
    ensures Read(Line(path, lookup).value).Some? && Read(Line(path, lookup).value).value != []
    ensures var args := Read(Line(path, lookup).value).value;
            Line(args[|args| - 1], (key: string) => Assigned(Choices(args), key)) == Line(path, lookup)
  {
    ChoicesRead(path, lookup);
    var args := Read(Line(path, lookup).value).value;
    var again := (key: string) => Assigned(Choices(args), key);
    KeysAreKeyLike();
    forall k | 0 <= k < |KEYS| ensures Repeated(KEYS[k], again(KEYS[k])) == Repeated(KEYS[k], lookup(KEYS[k])) {
      AssignedBack(lookup, KEYS, KEYS[k]);
    }
    PartsAgree(again, lookup, KEYS);
  }

  /** A line read is a line to read: only an escape in front of every `"`, backtick,
      `$` and backslash makes a quoted argument. */
  lemma {:induction false} OnlyEscapedReads(s: string)
    requires Quoted(s).Piece?
    ensures s == Escape(Quoted(s).arg) + "\"" + Quoted(s).rest
    decreases |s|
  {
    if s[0] == '"' {
      assert s == "" + "\"" + s[1..];
    } else {
      var n := if s[0] == '\\' then 2 else 1;
      OnlyEscapedReads(s[n..]);
      var arg := Quoted(s[n..]).arg;
      assert ([s[n - 1]] + arg)[1..] == arg;
      assert s == s[..n] + s[n..] && s[..n] == EscapeOne(s[n - 1]);
      assert Escape([s[n - 1]] + arg) == EscapeOne(s[n - 1]) + Escape(arg);
    }
  }

  /** A workaround somebody may have set, or the backend: the keys an entry may repeat. */
  predicate Repeatable(key: string, value: string) {
    && NamesAKey(key) && value != "" && (key == "LINGER_LINUX_BACKEND" || value != "1")
    && forall i :: 0 <= i < |value| ==>
         'a' <= value[i] <= 'z' || 'A' <= value[i] <= 'Z' || '0' <= value[i] <= '9' || value[i] in "_-.+"
  }

  predicate NamesAKey(key: string) {
    || key == "WEBKIT_DMABUF_RENDERER_DISABLE_GBM" || key == "__NV_DISABLE_EXPLICIT_SYNC"
    || key == "LINGER_LINUX_BACKEND" || key == "GDK_GL"
  }

  lemma KeysByName(key: string)
    ensures key in KEYS <==> NamesAKey(key)
  {
    assert KEYS[0] == GBM && KEYS[1] == NV_EXPLICIT_SYNC && KEYS[2] == BACKEND && KEYS[3] == GDK_GL;
  }

  /** Of a line read back, for each key by name: it is assigned `value` exactly when that is
      what was set and what an entry repeats, a plain word other than a workaround's `1`. */
  lemma AssignsExactly(path: string, lookup: string -> Option<string>, key: string, value: string)
    requires Line(path, lookup).Some? && KeyLike(key)
    ensures Read(Line(path, lookup).value).Some?
    ensures var args := Read(Line(path, lookup).value).value;
            Assigned(Choices(args), key) == Some(value) <==> lookup(key) == Some(value) && Repeatable(key, value)
  {
    ChoicesRead(path, lookup);
    KeysAreKeyLike();
    AssignedBack(lookup, KEYS, key);
    KeysByName(key);
  }

  lemma {:induction false} PartsFrom(lookup: string -> Option<string>, keys: seq<string>, j: nat) returns (key: string)
    requires j < |Parts(lookup, keys)|
    ensures key in keys && lookup(key).Some? && Parts(lookup, keys)[j] == key + "=" + lookup(key).value
    ensures Repeated(key, lookup(key)) != []
    decreases |keys|
  {
    var n := |keys| - 1;
    var before := Parts(lookup, keys[..n]);
    if j < |before| {
      key := PartsFrom(lookup, keys[..n], j);
    } else {
      key := keys[n];
    }
  }

  /** And nothing else stands in front of the program: every other argument assigns one of
      those keys such a value. */
  lemma NothingElseStands(path: string, lookup: string -> Option<string>, j: nat) returns (key: string, value: string)
    requires Line(path, lookup).Some?
    requires Read(Line(path, lookup).value).Some? && j < |Choices(Read(Line(path, lookup).value).value)|
    ensures Repeatable(key, value) && lookup(key) == Some(value)
    ensures Choices(Read(Line(path, lookup).value).value)[j] == key + "=" + value
  {
    ChoicesRead(path, lookup);
    key := PartsFrom(lookup, KEYS, j);
    value := lookup(key).value;
    KeysByName(key);
  }

  /** A path is refused exactly when it is empty or can't be on one line. */
  lemma RefusedExactlyWhen(path: string, lookup: string -> Option<string>)
    ensures Line(path, lookup).None? <==> path == "" || '\n' in path || '\r' in path || '\0' in path
  {
  }

  lemma {:induction false} NothingDoubled(s: string)
    requires '%' !in s
    ensures Doubled(s) == s
  {
    if s != "" {
      NothingDoubled(s[1..]);
    }
  }

  /** A path without a reserved character or `%`, and nothing chosen, is the whole line. */
  lemma PlainLineIsThePath(path: string, lookup: string -> Option<string>)
    requires Line(path, lookup).Some? && !NeedsQuotes(path) && '%' !in path
    requires forall key, value :: lookup(key) == Some(value) ==> !Repeatable(key, value)
    ensures Line(path, lookup) == Some(path)
  {
    NothingDoubled(path);
    if Parts(lookup, KEYS) != [] {
      var key := PartsFrom(lookup, KEYS, 0);
      KeysByName(key);
    }
  }

  /** The program `env` would run: the first argument that isn't an assignment. */
  function Program(args: seq<string>): Option<string> {
    if args == [] then None else if '=' in args[0] then Program(args[1..]) else Some(args[0])
  }

  lemma {:induction false} ProgramAfter(parts: seq<string>, path: string)
    requires forall k :: 0 <= k < |parts| ==> '=' in parts[k]
    ensures Program(parts + [path]) == if '=' in path then None else Some(path)
  {
    if parts == [] {
      assert parts + [path] == [path];
      assert [path][1..] == [];
    } else {
      assert (parts + [path])[0] == parts[0] && (parts + [path])[1..] == parts[1..] + [path];
      ProgramAfter(parts[1..], path);
    }
  }

  lemma {:induction false} PartsAssign(lookup: string -> Option<string>, keys: seq<string>)
    ensures forall k :: 0 <= k < |Parts(lookup, keys)| ==> '=' in Parts(lookup, keys)[k]
    decreases |keys|
  {
    if keys != [] {
      var n := |keys| - 1;
      PartsAssign(lookup, keys[..n]);
      var more := Repeated(keys[n], lookup(keys[n]));
      if more != [] {
        assert more[0][|keys[n]|] == '=';
      }
    }
  }

  /** What an entry starts, with its settings in front or not. */
  function Started(args: seq<string>, env: bool): Option<string> {
    if args == [] then None else if env then Program(args[1..]) else Some(args[0])
  }

  /** The line starts the program, unless it has to go through `env` and the path
      itself reads as an assignment. */
  lemma StartsTheProgram(path: string, lookup: string -> Option<string>)
    requires Line(path, lookup).Some?
    ensures Read(Line(path, lookup).value).Some?
    ensures var env := Parts(lookup, KEYS) != [];
            Started(Read(Line(path, lookup).value).value, env) == Some(path) <==> !env || '=' !in path
  {
    var parts := Parts(lookup, KEYS);
    LineReadsBack(path, lookup);
    if parts != [] {
      PartsAssign(lookup, KEYS);
      StartsThroughEnv(parts, path);
    }
  }

  lemma StartsThroughEnv(parts: seq<string>, path: string)
    requires forall k :: 0 <= k < |parts| ==> '=' in parts[k]
    ensures Started(["env"] + parts + [path], true) == if '=' in path then None else Some(path)
  {
    assert (["env"] + parts + [path])[1..] == parts + [path];
    ProgramAfter(parts, path);
  }
}
