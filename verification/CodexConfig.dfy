/** The managed block in Codex's configuration file: one block between two markers, edited in place. */
module CodexConfig {
  import opened Wrappers
  import opened Text

  const MANAGED_START := "# >>> PACT managed Codex MCP"
  const MANAGED_END := "# <<< PACT managed Codex MCP"

  datatype Error = MalformedBlock | AlreadyDefined

  // ---- Searching ----

  /** strings.Count: occurrences that do not overlap, found from the left. */
  function Count(s: string, m: string): nat
    requires m != ""
    decreases |s|
  {
    if s == "" then 0
    else if m <= s then 1 + Count(s[|m|..], m)
    else Count(s[1..], m)
  }

  /** strings.Index. */
  function Index(s: string, m: string): Option<nat>
    requires m != ""
    decreases |s|
  {
    if s == "" then None
    else if m <= s then Some(0)
    else
      var rest := Index(s[1..], m);
      if rest.None? then None else Some(rest.value + 1)
  }

  // ---- The table that must not be defined elsewhere ----

  function SkipBlank(s: string): string
  {
    if s != "" && (s[0] == '\t' || s[0] == ' ') then SkipBlank(s[1..]) else s
  }

  /** The rest after a word and the blanks behind it. */
  function After(s: Option<string>, word: string): Option<string>
  {
    if s.Some? && word <= s.value then Some(SkipBlank(s.value[|word|..])) else None
  }

  function FirstOf(a: Option<string>, b: Option<string>): Option<string>
  {
    if a.Some? then a else b
  }

  /** pactTablePattern on one line: the header of mcp_servers.pact, with an optional comment. */
  predicate PactTable(line: string)
  {
    var name := After(After(After(Some(SkipBlank(line)), "["), "mcp_servers"), ".");
    var named := FirstOf(After(name, "pact"), FirstOf(After(name, "\"pact\""), After(name, "'pact'")));
    var rest := After(named, "]");
    rest.Some? && (rest.value == "" || rest.value[0] == '#')
  }

  predicate DefinesPact(text: string)
  {
    exists line :: line in Split(text, '\n') && PactTable(line)
  }

  // ---- The block ----

  /** strconv.Quote of a path: in double quotes, and on one line. */
  predicate Quoted(q: string)
  {
    |q| >= 2 && q[0] == '"' && q[|q| - 1] == '"' && '\n' !in q
  }

  // The two longer lines are written in parts: the verifier does not look inside literals of their length.
  const NOTE_TEXT := "# Machine-local configuration" + " generated by `pact enable codex`."
  const NOTE := NOTE_TEXT + "\n"
  const TABLE_TEXT := "[mcp_servers.pact]"
  const TABLE := TABLE_TEXT + "\n"
  const ARGS_TEXT := "args = [\"mcp\", \"serve\", " + "\"--client\", \"codex\", " + "\"--name\", \"Codex\", " + "\"--path\", \".\"]"
  const ARGS := ARGS_TEXT + "\n"

  function Setting(name: string, value: string): string
  {
    name + (" = " + (value + "\n"))
  }

  function Head(command: string, root: string): string
  {
    MANAGED_START + ("\n" + (NOTE + (TABLE + (Setting("command", command) + (ARGS + Setting("cwd", root))))))
  }

  function ManagedBlock(command: string, root: string): string
  {
    Head(command, root) + (MANAGED_END + "\n")
  }

  datatype Range = NotFound | Found(start: nat, end: nat)

  /** One carriage return and one newline behind the end marker belong to the block. */
  function BlockEnd(text: string, end: nat): nat
    requires end <= |text|
    ensures end <= BlockEnd(text, end) <= |text|
  {
    var returned := if end < |text| && text[end] == '\r' then end + 1 else end;
    if returned < |text| && text[returned] == '\n' then returned + 1 else returned
  }

  function ManagedRange(text: string): (r: Result<Range, Error>)
    ensures r.Ok? && r.value.Found? ==> r.value.start <= r.value.end <= |text|
  {
    var starts, ends := Count(text, MANAGED_START), Count(text, MANAGED_END);
    if starts == 0 && ends == 0 then Ok(NotFound)
    else if starts != 1 || ends != 1 then Err(MalformedBlock)
    else
      var start, end := Index(text, MANAGED_START), Index(text, MANAGED_END);
      if start.None? || end.None? || end.value < start.value || end.value + |MANAGED_END| > |text| then Err(MalformedBlock)
      else Ok(Found(start.value, BlockEnd(text, end.value + |MANAGED_END|)))
  }

  function Outside(text: string, range: Range): string
    requires range.Found? ==> range.start <= range.end <= |text|
  {
    if range.NotFound? then text else text[..range.start] + text[range.end..]
  }

  /** What separates a first block from the text before it. */
  function Separator(text: string): string
  {
    if text == "" then "" else if text[|text| - 1] == '\n' then "\n" else "\n\n"
  }

  function UpdateConfig(text: string, command: string, root: string): Result<string, Error>
  {
    var range :- ManagedRange(text);
    if DefinesPact(Outside(text, range)) then Err(AlreadyDefined)
    else
      var block := ManagedBlock(command, root);
      Ok(match range
         case Found(start, end) => text[..start] + block + text[end..]
         case NotFound => text + Separator(text) + block)
  }

  // ---- Counting ----

  /** How often m stands anywhere in s. */
  function Hits(s: string, m: string): nat
  {
    if s == "" then 0 else (if m <= s then 1 else 0) + Hits(s[1..], m)
  }

  /** A marker is a comment: its first character occurs nowhere else in it, nor does a line end or a quote. */
  predicate Marker(m: string)
  {
    && |m| > 1
    && m[0] == '#'
    && (forall i :: 0 < i < |m| ==> m[i] != '#')
    && (forall i :: 0 <= i < |m| ==> m[i] != '\n' && m[i] != '"')
  }

  lemma Markers()
    ensures Marker(MANAGED_START) && Marker(MANAGED_END)
  {
  }

  /** No marker can straddle a seam: to the left a line has ended, or to the right stands a character
      that a marker has nowhere but at its beginning, if at all. */
  predicate Seam(a: string, b: string)
  {
    a == "" || b == "" || a[|a| - 1] == '\n' || b[0] == '#' || b[0] == '"' || b[0] == '\n'
  }

  lemma SeamHolds(a: string, b: string, m: string)
    requires Marker(m) && Seam(a, b) && a != ""
    ensures m <= a + b <==> m <= a
  {
    assert b != "" ==> (a + b)[|a| - 1] == a[|a| - 1] && (a + b)[|a|] == b[0];
    assert m <= a + b ==> forall i :: 0 <= i < |m| ==> m[i] == (a + b)[i];
    assert m <= a + b && |m| <= |a| ==> m <= a;
  }

  lemma {:induction false} HitsAcrossSeam(a: string, b: string, m: string)
    requires Marker(m) && Seam(a, b)
    ensures Hits(a + b, m) == Hits(a, m) + Hits(b, m)
    decreases |a|
  {
    if a == "" {
      assert a + b == b;
    } else {
      assert (a + b)[1..] == a[1..] + b;
      HitsAcrossSeam(a[1..], b, m);
      SeamHolds(a, b, m);
    }
  }

  lemma {:induction false} NoHitsWithoutHash(s: string, rest: string, m: string)
    requires Marker(m) && '#' !in s
    ensures Hits(s + rest, m) == Hits(rest, m)
    decreases |s|
  {
    if s == "" {
      assert s + rest == rest;
    } else {
      assert (s + rest)[1..] == s[1..] + rest;
      NoHitsWithoutHash(s[1..], rest, m);
    }
  }

  /** Markers cannot overlap themselves, so the two ways of counting agree. */
  lemma {:induction false} CountIsHits(s: string, m: string)
    requires Marker(m)
    ensures Count(s, m) == Hits(s, m)
    decreases |s|
  {
    if s != "" {
      if m <= s {
        CountIsHits(s[|m|..], m);
        assert s[1..] == m[1..] + s[|m|..];
        NoHitsWithoutHash(m[1..], s[|m|..], m);
      } else {
        CountIsHits(s[1..], m);
      }
    }
  }

  /** The first hit is behind a part without hits. */
  lemma {:induction false} IndexBehind(a: string, b: string, m: string)
    requires Marker(m) && Seam(a, b) && Hits(a, m) == 0 && m <= b
    ensures Index(a + b, m) == Some(|a|)
    decreases |a|
  {
    if a == "" {
      assert a + b == b;
    } else {
      HitsAcrossSeam(a, b, m);
      assert (a + b)[1..] == a[1..] + b;
      HitsAcrossSeam(a[1..], b, m);
      IndexBehind(a[1..], b, m);
    }
  }

  lemma {:induction false} IndexSplits(s: string, m: string)
    requires Marker(m) && Hits(s, m) > 0
    ensures Index(s, m).Some? && Index(s, m).value + |m| <= |s|
    ensures m <= s[Index(s, m).value..] && Hits(s[..Index(s, m).value], m) == 0
    decreases |s|
  {
    if !(m <= s) {
      IndexSplits(s[1..], m);
      var i := Index(s[1..], m).value;
      assert s[1..][i..] == s[i + 1..] && s[..i + 1][1..] == s[1..][..i];
      assert m <= s[..i + 1] ==> m <= s;
    }
  }

  /** Counting loses nothing: the parts of a text hold at most as many markers as the whole. */
  lemma {:induction false} HitsOfParts(a: string, b: string, m: string)
    requires m != ""
    ensures Hits(a, m) + Hits(b, m) <= Hits(a + b, m)
    decreases |a|
  {
    if a == "" {
      assert a + b == b;
    } else {
      assert (a + b)[1..] == a[1..] + b;
      HitsOfParts(a[1..], b, m);
      assert m <= a ==> m <= a + b;
    }
  }

  // ---- The markers in a block ----

  /** No marker in it. */
  ghost predicate Clear(s: string)
  {
    Hits(s, MANAGED_START) == 0 && Hits(s, MANAGED_END) == 0
  }

  lemma PlainHits(s: string, m: string)
    requires Marker(m) && '#' !in s
    ensures Hits(s, m) == 0
  {
    NoHitsWithoutHash(s, "", m);
    assert s + "" == s;
  }

  /** A comment counts as a marker only if it begins like one. */
  lemma CommentHits(s: string, m: string)
    requires Marker(m) && s != "" && s[0] == '#' && forall i :: 0 < i < |s| ==> s[i] != '#'
    ensures Hits(s, m) == if m <= s then 1 else 0
  {
    PlainHits(s[1..], m);
  }

  lemma SettingHits(name: string, value: string, m: string)
    requires Marker(m) && Quoted(value) && '#' !in name
    ensures Hits(Setting(name, value), m) == Hits(value, m)
  {
    PlainHits("\n", m);
    HitsAcrossSeam(value, "\n", m);
    NoHitsWithoutHash(name + " = ", value + "\n", m);
    assert Setting(name, value) == name + " = " + (value + "\n");
  }

  lemma FixedLines(m: string)
    requires m == MANAGED_START || m == MANAGED_END
    ensures Marker(m) && Hits(NOTE, m) == 0 && Hits(TABLE, m) == 0 && Hits(ARGS, m) == 0
    ensures Hits(MANAGED_START, m) + Hits(MANAGED_END, m) == 1 && Hits(m, m) == 1
  {
    Markers();
    NoteIsComment();
    ArgsArePlain();
    ThirdCharacters();
    hide Hits, Marker;
    MarkerIsComment(MANAGED_START);
    MarkerIsComment(MANAGED_END);
    CommentHits(NOTE, m);
    CommentHits(MANAGED_START, m);
    CommentHits(MANAGED_END, m);
    PlainHits(TABLE, m);
    PlainHits(ARGS, m);
  }

  lemma MarkerIsComment(m: string)
    requires Marker(m)
    ensures m != "" && m[0] == '#' && forall i :: 0 < i < |m| ==> m[i] != '#'
  {
  }

  lemma ThirdCharacters()
    ensures !(MANAGED_START <= NOTE) && !(MANAGED_END <= NOTE)
    ensures !(MANAGED_START <= MANAGED_END) && !(MANAGED_END <= MANAGED_START)
    ensures '#' !in TABLE
  {
    assert MANAGED_START[2] == '>' && MANAGED_END[2] == '<';
    assert NOTE[2] == "# Machine-local configuration"[2] == 'M';
  }

  lemma NoteIsComment()
    ensures NOTE != "" && NOTE[0] == '#' && forall i :: 0 < i < |NOTE| ==> NOTE[i] != '#'
  {
    var a, b := "# Machine-local configuration", " generated by `pact enable codex`.";
    assert NOTE == a + b + "\n";
    assert forall i :: 0 < i < |a| ==> a[i] != '#';
    assert forall i :: 0 <= i < |b| ==> b[i] != '#';
  }

  lemma ArgsArePlain()
    ensures '#' !in ARGS
  {
    assert '#' !in "args = [\"mcp\", \"serve\", ";
    assert '#' !in "\"--client\", \"codex\", ";
    assert '#' !in "\"--name\", \"Codex\", ";
    assert '#' !in "\"--path\", \".\"]";
  }

  /** A block holds each marker once, and whatever its paths hold besides. */
  lemma BlockHits(command: string, root: string, m: string)
    requires Quoted(command) && Quoted(root) && (m == MANAGED_START || m == MANAGED_END)
    ensures Hits(ManagedBlock(command, root), m) == 1 + Hits(command, m) + Hits(root, m)
    ensures m == MANAGED_END ==> Hits(Head(command, root), m) == Hits(command, m) + Hits(root, m)
  {
    hide Hits, Setting, Quoted, Marker;
    FixedLines(m);
    NameHasNoHash();
    SettingHits("command", command, m);
    SettingHits("cwd", root, m);
    SettingEnds("command", command);
    SettingEnds("cwd", root);
    var e := Setting("cwd", root);
    var d := ARGS + e;
    HitsAcrossSeam(ARGS, e, m);
    var c := Setting("command", command) + d;
    HitsAcrossSeam(Setting("command", command), d, m);
    var b := TABLE + c;
    HitsAcrossSeam(TABLE, c, m);
    var a := NOTE + b;
    HitsAcrossSeam(NOTE, b, m);
    PlainHits("\n", m);
    HitsAcrossSeam("\n", a, m);
    HitsAcrossSeam(MANAGED_START, "\n" + a, m);
    var head := Head(command, root);
    assert head == MANAGED_START + ("\n" + a);
    HitsAcrossSeam(MANAGED_END, "\n", m);
    HitsAcrossSeam(head, MANAGED_END + "\n", m);
  }

  lemma NameHasNoHash()
    ensures '#' !in "command" && '#' !in "cwd"
  {
  }

  lemma SettingEnds(name: string, value: string)
    ensures Setting(name, value) != "" && Setting(name, value)[|Setting(name, value)| - 1] == '\n'
  {
  }

  // ---- Texts with one block ----

  lemma BlockEnds(command: string, root: string)
    ensures var block := ManagedBlock(command, root);
      && block != "" && block[0] == '#' && block[|block| - 1] == '\n'
      && MANAGED_START <= block
      && |block| == |Head(command, root)| + |MANAGED_END| + 1
    ensures Head(command, root) != "" && Head(command, root)[|Head(command, root)| - 1] == '\n' && Head(command, root)[0] == '#'
  {
    SettingEnds("cwd", root);
    hide Setting;
    assert MANAGED_START[0] == '#';
  }

  /** What counting finds in a block between two clear texts. */
  lemma CountsAround(before: string, command: string, root: string, after: string, m: string)
    requires Quoted(command) && Quoted(root) && Clear(before) && Clear(after) && (m == MANAGED_START || m == MANAGED_END)
    ensures Count(before + ManagedBlock(command, root) + after, m) == 1 + Hits(command, m) + Hits(root, m)
  {
    hide Hits, ManagedBlock, Quoted, Marker;
    Markers();
    BlockEnds(command, root);
    BlockHits(command, root, m);
    var block := ManagedBlock(command, root);
    HitsAcrossSeam(before, block, m);
    HitsAcrossSeam(before + block, after, m);
    CountIsHits(before + block + after, m);
  }

  /** A block with clear paths between two clear texts is found, exactly. */
  lemma BlockIsFound(before: string, command: string, root: string, after: string)
    requires Quoted(command) && Quoted(root) && Clear(before) && Clear(after) && Clear(command) && Clear(root)
    ensures var block := ManagedBlock(command, root);
      ManagedRange(before + block + after) == Ok(Found(|before|, |before| + |block|))
  {
    hide Hits, Quoted, Marker, Index, Count, Head;
    Markers();
    BlockEnds(command, root);
    CountsAround(before, command, root, after, MANAGED_START);
    CountsAround(before, command, root, after, MANAGED_END);
    BlockHits(command, root, MANAGED_END);
    var block, head := ManagedBlock(command, root), Head(command, root);
    var text := before + block + after;
    assert text == before + (block + after);
    IndexBehind(before, block + after, MANAGED_START);
    HitsAcrossSeam(before, head, MANAGED_END);
    assert text == (before + head) + (MANAGED_END + "\n" + after);
    IndexBehind(before + head, MANAGED_END + "\n" + after, MANAGED_END);
    assert text[|before| + |head| + |MANAGED_END|] == '\n';
  }

  /** A path that holds a marker makes the block malformed. */
  lemma MarkedPathIsMalformed(before: string, command: string, root: string, after: string)
    requires Quoted(command) && Quoted(root) && Clear(before) && Clear(after) && !(Clear(command) && Clear(root))
    ensures ManagedRange(before + ManagedBlock(command, root) + after) == Err(MalformedBlock)
  {
    hide Hits, Quoted, Index, Count, ManagedBlock;
    CountsAround(before, command, root, after, MANAGED_START);
    CountsAround(before, command, root, after, MANAGED_END);
  }

  /** A block that is found leaves clear texts on both sides. */
  lemma SidesAreClear(text: string)
    requires ManagedRange(text).Ok?
    ensures ManagedRange(text).value.NotFound? ==> Clear(text)
    ensures ManagedRange(text).value.Found? ==> Clear(text[..ManagedRange(text).value.start]) && Clear(text[ManagedRange(text).value.end..])
  {
    Markers();
    hide Hits, Marker, Index, Count;
    CountIsHits(text, MANAGED_START);
    CountIsHits(text, MANAGED_END);
    if ManagedRange(text).value.Found? {
      IndexSplits(text, MANAGED_START);
      IndexSplits(text, MANAGED_END);
      var start, end := ManagedRange(text).value.start, ManagedRange(text).value.end;
      var marker := Index(text, MANAGED_END).value;
      assert text[..marker] == text[..start] + text[start..marker];
      HitsOfParts(text[..start], text[start..marker], MANAGED_END);
      ClearBehind(text, start, MANAGED_START, end);
      ClearBehind(text, marker, MANAGED_END, end);
    }
  }

  /** Behind the only occurrence of a marker there is none. */
  lemma ClearBehind(text: string, at: nat, m: string, end: nat)
    requires Marker(m) && at + |m| <= end <= |text| && m <= text[at..] && Hits(text, m) == 1
    ensures Hits(text[end..], m) == 0
  {
    assert text[at..at + |m|] == m;
    assert Hits(m, m) >= 1;
    hide Hits;
    var a, b := text[..at], text[at + |m|..end];
    assert text == (a + m) + (b + text[end..]);
    HitsOfParts(a, m, m);
    HitsOfParts(b, text[end..], m);
    HitsOfParts(a + m, b + text[end..], m);
  }

  // ---- The separator ----

  lemma SeparatorIsClear(text: string)
    requires Clear(text)
    ensures Clear(text + Separator(text))
  {
    Markers();
    PlainHits(Separator(text), MANAGED_START);
    PlainHits(Separator(text), MANAGED_END);
    hide Hits, Marker;
    HitsAcrossSeam(text, Separator(text), MANAGED_START);
    HitsAcrossSeam(text, Separator(text), MANAGED_END);
  }

  /** The separator adds empty lines only, and those define nothing. */
  lemma SeparatorDefinesNothing(text: string)
    ensures DefinesPact(text + Separator(text)) == DefinesPact(text)
  {
    hide PactTable;
    assert !PactTable("") by { EmptyLineDefinesNothing(); }
    var sep := Separator(text);
    if text == "" {
      assert text + sep == text;
    } else {
      SplitConcat(text, sep[1..], '\n');
      assert text + sep == text + ['\n'] + sep[1..];
      if sep == "\n\n" {
        SplitConcat("", "", '\n');
        assert sep[1..] == "" + ['\n'] + "";
      }
      assert forall line :: line in Split(sep[1..], '\n') ==> line == "";
    }
  }

  lemma EmptyLineDefinesNothing()
    ensures !PactTable("")
  {
  }

  // ---- The laws ----

  /** Where an update puts its block: the text before and the text behind, whatever the paths. */
  function Before(text: string): string
    requires ManagedRange(text).Ok?
  {
    match ManagedRange(text).value
    case Found(start, _) => text[..start]
    case NotFound => text + Separator(text)
  }

  function Behind(text: string): string
    requires ManagedRange(text).Ok?
  {
    match ManagedRange(text).value
    case Found(_, end) => text[end..]
    case NotFound => ""
  }

  lemma UpdateShape(text: string, command: string, root: string)
    requires UpdateConfig(text, command, root).Ok?
    ensures ManagedRange(text).Ok?
    ensures UpdateConfig(text, command, root).value == Before(text) + ManagedBlock(command, root) + Behind(text)
    ensures Clear(Before(text)) && Clear(Behind(text)) && !DefinesPact(Before(text) + Behind(text))
  {
    hide Hits, ManagedBlock;
    SidesAreClear(text);
    if ManagedRange(text).value.NotFound? {
      SeparatorIsClear(text);
      SeparatorDefinesNothing(text);
      assert text + Separator(text) + "" == text + Separator(text);
      assert UpdateConfig(text, command, root).value + "" == UpdateConfig(text, command, root).value;
      assert Clear("") by { EmptyIsClear(); }
    }
  }

  lemma EmptyIsClear()
    ensures Clear("")
  {
  }

  /** Every byte outside the block and its own line ending survives an update; a first block adds the
      separator and nothing else. */
  lemma UpdateKeepsOutside(text: string, command: string, root: string)
    requires UpdateConfig(text, command, root).Ok?
    requires Quoted(command) && Quoted(root) && Clear(command) && Clear(root)
    ensures var u := UpdateConfig(text, command, root).value;
      && ManagedRange(u).Ok? && ManagedRange(u).value.Found?
      && u[ManagedRange(u).value.start..ManagedRange(u).value.end] == ManagedBlock(command, root)
      && Outside(u, ManagedRange(u).value) ==
         if ManagedRange(text).value.Found? then Outside(text, ManagedRange(text).value) else text + Separator(text)
  {
    hide ManagedBlock, ManagedRange, Clear;
    UpdateShape(text, command, root);
    BlockIsFound(Before(text), command, root, Behind(text));
    hide UpdateConfig;
    var u, b, a := UpdateConfig(text, command, root).value, Before(text), Behind(text);
    assert u[..|b|] == b && u[|b| + |ManagedBlock(command, root)|..] == a;
    assert text + Separator(text) + "" == text + Separator(text);
  }

  /** A second update succeeds if and only if the paths of the first hold no marker; then it gives what
      it would have given on the original text, as if it had been the only one. */
  lemma LaterUpdateOverrides(text: string, command: string, root: string, newCommand: string, newRoot: string)
    requires UpdateConfig(text, command, root).Ok? && Quoted(command) && Quoted(root)
    ensures var u := UpdateConfig(text, command, root).value;
      && (UpdateConfig(u, newCommand, newRoot).Ok? <==> Clear(command) && Clear(root))
      && (Clear(command) && Clear(root) ==> UpdateConfig(u, newCommand, newRoot) == UpdateConfig(text, newCommand, newRoot))
  {
    hide ManagedBlock, ManagedRange, Clear, DefinesPact;
    UpdateShape(text, command, root);
    var u, b, a := UpdateConfig(text, command, root).value, Before(text), Behind(text);
    assert UpdateConfig(text, newCommand, newRoot).Ok?;
    UpdateShape(text, newCommand, newRoot);
    if Clear(command) && Clear(root) {
      BlockIsFound(b, command, root, a);
      var block := ManagedBlock(command, root);
      assert u[..|b|] == b && u[|b| + |block|..] == a;
    } else {
      MarkedPathIsMalformed(b, command, root, a);
    }
  }

  /** Updating twice with the same arguments equals updating once. */
  lemma UpdateIsIdempotent(text: string, command: string, root: string)
    requires UpdateConfig(text, command, root).Ok?
    requires Quoted(command) && Quoted(root) && Clear(command) && Clear(root)
    ensures UpdateConfig(UpdateConfig(text, command, root).value, command, root) == UpdateConfig(text, command, root)
  {
    hide UpdateConfig;
    LaterUpdateOverrides(text, command, root, command, root);
  }

  // ---- What the block says ----

  /** Read line by line: between the markers stand the note, the table's header, the command, its arguments
      and the working directory. */
  lemma BlockLines(command: string, root: string)
    requires Quoted(command) && Quoted(root)
    ensures Split(ManagedBlock(command, root), '\n') ==
      [MANAGED_START, NOTE_TEXT, TABLE_TEXT, "command = " + command, ARGS_TEXT, "cwd = " + root, MANAGED_END, ""]
  {
    MarkersAreLines();
    NoteIsLine();
    TableIsLine();
    ArgsIsLine();
    SettingIsLine("command", command);
    SettingIsLine("cwd", root);
    SevenLines(MANAGED_START, NOTE_TEXT, TABLE_TEXT, "command" + (" = " + command), ARGS_TEXT, "cwd" + (" = " + root), MANAGED_END);
    BlockInParts(command, root);
    KeyAndValue(command, root);
    hide Split, ManagedBlock, Quoted;
  }

  function Seven(a: string, b: string, c: string, d: string, e: string, f: string, g: string): string
  {
    a + ("\n" + ((b + "\n") + ((c + "\n") + ((d + "\n") + ((e + "\n") + (f + "\n")))))) + (g + "\n")
  }

  lemma BlockInParts(command: string, root: string)
    ensures ManagedBlock(command, root) ==
      Seven(MANAGED_START, NOTE_TEXT, TABLE_TEXT, "command" + (" = " + command), ARGS_TEXT, "cwd" + (" = " + root), MANAGED_END)
  {
    SettingAsLine("command", command);
    SettingAsLine("cwd", root);
    hide Setting;
  }

  lemma SettingAsLine(name: string, value: string)
    ensures Setting(name, value) == name + (" = " + value) + "\n"
  {
    assert name + (" = " + (value + "\n")) == name + (" = " + value) + "\n";
  }

  lemma KeyAndValue(command: string, root: string)
    ensures "command" + (" = " + command) == "command = " + command && "cwd" + (" = " + root) == "cwd = " + root
  {
    assert "command" + " = " == "command = " && "cwd" + " = " == "cwd = ";
    assert "command" + (" = " + command) == ("command" + " = ") + command;
    assert "cwd" + (" = " + root) == ("cwd" + " = ") + root;
  }

  lemma SettingIsLine(name: string, value: string)
    requires Quoted(value) && (name == "command" || name == "cwd")
    ensures '\n' !in name + (" = " + value)
  {
    assert '\n' !in "command" && '\n' !in "cwd" && '\n' !in " = ";
  }

  lemma MarkersAreLines()
    ensures '\n' !in MANAGED_START && '\n' !in MANAGED_END
  {
    Markers();
  }

  lemma NoteIsLine()
    ensures '\n' !in NOTE_TEXT
  {
    assert '\n' !in "# Machine-local configuration" && '\n' !in " generated by `pact enable codex`.";
  }

  lemma TableIsLine()
    ensures '\n' !in TABLE_TEXT
  {
  }

  lemma ArgsIsLine()
    ensures '\n' !in ARGS_TEXT
  {
    assert '\n' !in "args = [\"mcp\", \"serve\", ";
    assert '\n' !in "\"--client\", \"codex\", ";
    assert '\n' !in "\"--name\", \"Codex\", ";
    assert '\n' !in "\"--path\", \".\"]";
  }

  lemma OneMoreLine(line: string, rest: string)
    requires '\n' !in line
    ensures Split((line + "\n") + rest, '\n') == [line] + Split(rest, '\n')
  {
    SplitWhole(line, '\n');
    SplitConcat(line, rest, '\n');
    assert (line + "\n") + rest == line + ['\n'] + rest;
  }

  lemma Regrouped(a: string, b: string, c: string)
    ensures (a + b) + c == a + (b + c)
  {
  }

  /** A line before a text that is made of lines. */
  lemma LineBefore(line: string, rest: string, behind: string, lines: seq<string>)
    requires '\n' !in line && Split(rest + behind, '\n') == lines
    ensures Split(((line + "\n") + rest) + behind, '\n') == [line] + lines
  {
    OneMoreLine(line, rest + behind);
    Regrouped(line + "\n", rest, behind);
  }

  lemma ThreeLines(e: string, f: string, g: string)
    requires '\n' !in e && '\n' !in f && '\n' !in g
    ensures Split(((e + "\n") + (f + "\n")) + (g + "\n"), '\n') == [e, f, g, ""]
  {
    assert Split("", '\n') == [""];
    hide Split;
    OneMoreLine(g, "");
    assert (g + "\n") + "" == g + "\n";
    OneMoreLine(f, g + "\n");
    LineBefore(e, f + "\n", g + "\n", [f, g, ""]);
  }

  lemma SevenLines(a: string, b: string, c: string, d: string, e: string, f: string, g: string)
    requires '\n' !in a && '\n' !in b && '\n' !in c && '\n' !in d && '\n' !in e && '\n' !in f && '\n' !in g
    ensures Split(Seven(a, b, c, d, e, f, g), '\n') == [a, b, c, d, e, f, g, ""]
  {
    hide Split;
    var r5 := (e + "\n") + (f + "\n");
    var r4 := (d + "\n") + r5;
    var r3 := (c + "\n") + r4;
    var last := g + "\n";
    ThreeLines(e, f, g);
    LineBefore(d, r5, last, [e, f, g, ""]);
    LineBefore(c, r4, last, [d, e, f, g, ""]);
    TwoMore(a, b, r3, last, [c, d, e, f, g, ""]);
  }

  lemma TwoMore(a: string, b: string, rest: string, last: string, lines: seq<string>)
    requires '\n' !in a && '\n' !in b && Split(rest + last, '\n') == lines
    ensures Split((a + ("\n" + ((b + "\n") + rest))) + last, '\n') == [a, b] + lines
  {
    hide Split;
    LineBefore(b, rest, last, lines);
    LineBefore(a, (b + "\n") + rest, last, [b] + lines);
    FirstSeam(a, (b + "\n") + rest, last);
    assert [a] + ([b] + lines) == [a, b] + lines;
  }

  lemma FirstSeam(a: string, r: string, behind: string)
    ensures a + ("\n" + r) + behind == ((a + "\n") + r) + behind
  {
    Regrouped(a, "\n", r);
  }

  // ---- Which lines define the table ----

  predicate Blanks(s: string)
  {
    forall i :: 0 <= i < |s| ==> s[i] == '\t' || s[i] == ' '
  }

  predicate StartsBlank(s: string)
  {
    s != "" && (s[0] == '\t' || s[0] == ' ')
  }

  lemma {:induction false} SkipBlankMeans(s: string) returns (blanks: string)
    ensures Blanks(blanks) && s == blanks + SkipBlank(s) && !StartsBlank(SkipBlank(s))
  {
    if StartsBlank(s) {
      var more := SkipBlankMeans(s[1..]);
      blanks := [s[0]] + more;
    } else {
      blanks := "";
    }
  }

  lemma {:induction false} SkipsBlanks(blanks: string, rest: string)
    requires Blanks(blanks) && !StartsBlank(rest)
    ensures SkipBlank(blanks + rest) == rest
  {
    if blanks == "" {
      assert blanks + rest == rest;
    } else {
      assert (blanks + rest)[1..] == blanks[1..] + rest;
      SkipsBlanks(blanks[1..], rest);
    }
  }

  /** After a word there is the rest behind the blanks, if the word is there. */
  lemma AfterMeans(s: string, word: string) returns (blanks: string)
    ensures After(Some(s), word).Some? ==> Blanks(blanks) && s == word + (blanks + After(Some(s), word).value) && !StartsBlank(After(Some(s), word).value)
  {
    blanks := "";
    if word <= s {
      blanks := SkipBlankMeans(s[|word|..]);
      assert s == word + s[|word|..];
    }
  }

  lemma AfterIs(word: string, blanks: string, rest: string)
    requires Blanks(blanks) && !StartsBlank(rest)
    ensures After(Some(word + (blanks + rest)), word) == Some(rest)
  {
    assert (word + (blanks + rest))[|word|..] == blanks + rest;
    SkipsBlanks(blanks, rest);
  }

  /** The header [mcp_servers.pact] with blanks allowed between its parts, the name bare or in quotes, and
      a comment allowed behind it. */
  ghost predicate Header(line: string, b: seq<string>, name: string, comment: string)
  {
    && |b| == 6 && (forall i :: 0 <= i < 6 ==> Blanks(b[i]))
    && name in {"pact", "\"pact\"", "'pact'"}
    && (comment == "" || comment[0] == '#')
    && line == b[0] + ("[" + (b[1] + ("mcp_servers" + (b[2] + ("." + (b[3] + (name + (b[4] + ("]" + (b[5] + comment))))))))))
  }

  /** A line defines the table if and only if it is such a header. */
  lemma PactTableIsHeader(line: string)
    ensures PactTable(line) <==> exists b, name, comment :: Header(line, b, name, comment)
  {
    if PactTable(line) {
      TableHasHeader(line);
    }
    if exists b, name, comment :: Header(line, b, name, comment) {
      var b, name, comment :| Header(line, b, name, comment);
      HeaderIsTable(line, b, name, comment);
    }
  }

  function NameAfter(s: Option<string>): Option<string>
  {
    FirstOf(After(s, "pact"), FirstOf(After(s, "\"pact\""), After(s, "'pact'")))
  }

  lemma NothingAfter(word: string)
    ensures After(None, word) == None
  {
  }

  lemma TableHasHeader(line: string)
    requires PactTable(line)
    ensures exists b, name, comment :: Header(line, b, name, comment)
  {
    NothingAfter("mcp_servers");
    NothingAfter(".");
    NothingAfter("pact");
    NothingAfter("\"pact\"");
    NothingAfter("'pact'");
    NothingAfter("]");
    hide SkipBlank, After, Blanks;
    var s0 := SkipBlank(line);
    var o1 := After(Some(s0), "[");
    var o2 := After(o1, "mcp_servers");
    var o3 := After(o2, ".");
    var name := if After(o3, "pact").Some? then "pact" else if After(o3, "\"pact\"").Some? then "\"pact\"" else "'pact'";
    var o4 := After(o3, name);
    var o5 := After(o4, "]");
    var b0 := SkipBlankMeans(line);
    var b1 := AfterMeans(s0, "[");
    var b2 := AfterMeans(o1.value, "mcp_servers");
    var b3 := AfterMeans(o2.value, ".");
    var b4 := AfterMeans(o3.value, name);
    var b5 := AfterMeans(o4.value, "]");
    assert Header(line, [b0, b1, b2, b3, b4, b5], name, o5.value);
  }

  lemma HeaderIsTable(line: string, b: seq<string>, name: string, comment: string)
    requires Header(line, b, name, comment)
    ensures PactTable(line)
  {
    hide SkipBlank, After, Blanks;
    var s4 := "]" + (b[5] + comment);
    var s3 := name + (b[4] + s4);
    var s2 := "." + (b[3] + s3);
    var s1 := "mcp_servers" + (b[2] + s2);
    var s0 := "[" + (b[1] + s1);
    SkipsBlanks(b[0], s0);
    AfterIs("[", b[1], s1);
    AfterIs("mcp_servers", b[2], s2);
    AfterIs(".", b[3], s3);
    AfterIs(name, b[4], s4);
    AfterIs("]", b[5], comment);
    OneNameOnly(s3, name);
  }

  /** The three spellings begin differently, so at most one of them is there. */
  lemma OneNameOnly(s: string, name: string)
    requires name in {"pact", "\"pact\"", "'pact'"} && After(Some(s), name).Some?
    ensures NameAfter(Some(s)) == After(Some(s), name)
  {
    hide SkipBlank;
    assert s[0] == name[0];
  }
}
