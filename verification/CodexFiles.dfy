/** Enabling Codex in a checkout: the configuration file and Git's local exclude file. */
module CodexFiles {
  import opened Wrappers
  import opened Text
  import opened CodexConfig

  const ENTRY := "/.codex/config.toml"
  const EXCLUDE_NOTE := "# Pact machine-local agent configuration"

  datatype Enabled = Enabled(created: bool, changed: bool, excluded: bool)

  predicate Lists(exclude: string)
  {
    exists line :: line in Split(exclude, '\n') && TrimSpace(line) == ENTRY
  }

  /** Ending the last line, if there is one. */
  function EndedText(text: string): string
  {
    if text != "" && text[|text| - 1] != '\n' then text + "\n" else text
  }

  /** The entry on a line of its own, below a note, after whatever was there. */
  function WithEntry(exclude: string): string
  {
    EndedText(exclude) + ['\n'] + (EXCLUDE_NOTE + ['\n'] + (ENTRY + ['\n'] + ""))
  }

  function Excluded(exclude: string): string
  {
    if Lists(exclude) then exclude else WithEntry(exclude)
  }

  lemma EntryIsTrimmed()
    ensures TrimSpace(ENTRY) == ENTRY && '\n' !in ENTRY && '\n' !in EXCLUDE_NOTE
  {
    assert ENTRY[0] == '/' && ENTRY[|ENTRY| - 1] == 'l';
  }

  /** Once excluded, the file is listed, and excluding it again changes nothing. */
  lemma ExcludingIsIdempotent(exclude: string)
    ensures Lists(Excluded(exclude)) && Excluded(Excluded(exclude)) == Excluded(exclude)
  {
    EntryIsTrimmed();
    hide TrimSpace;
    if !Lists(exclude) {
      var ended := EndedText(exclude);
      var tail := ENTRY + ['\n'] + "";
      SplitWhole(ENTRY, '\n');
      SplitConcat(ended, EXCLUDE_NOTE + ['\n'] + tail, '\n');
      SplitConcat(EXCLUDE_NOTE, tail, '\n');
      SplitConcat(ENTRY, "", '\n');
      assert ENTRY in Split(tail, '\n');
      assert ENTRY in Split(EXCLUDE_NOTE + ['\n'] + tail, '\n');
      assert ENTRY in Split(WithEntry(exclude), '\n');
    }
  }

  function WithoutLast(lines: seq<string>): seq<string>
  {
    if lines != [] && lines[|lines| - 1] == "" then lines[..|lines| - 1] else lines
  }

  lemma EndsEmpty(text: string)
    ensures text == "" || text[|text| - 1] == '\n' <==> Split(text, '\n')[|Split(text, '\n')| - 1] == ""
  {
    if text != "" {
      var before := text[..|text| - 1];
      if text[|text| - 1] == '\n' {
        assert text == before + ['\n'] + "";
        SplitConcat(before, "", '\n');
      } else {
        LastPart(before, text[|text| - 1]);
        assert text == before + [text[|text| - 1]];
      }
    }
  }

  lemma {:induction false} LastPart(before: string, last: char)
    requires last != '\n'
    ensures var parts := Split(before + [last], '\n'); parts[|parts| - 1] != ""
  {
    if before == "" {
      assert before + [last] == [last] && [last][1..] == "";
    } else {
      assert (before + [last])[1..] == before[1..] + [last];
      LastPart(before[1..], last);
    }
  }

  /** Read line by line: the file is left alone if some line is the entry once trimmed; otherwise an empty
      line, the note and the entry follow what was there. */
  lemma ExcludedLines(exclude: string)
    ensures (exists line :: line in Split(exclude, '\n') && TrimSpace(line) == "/.codex/config.toml") ==> Excluded(exclude) == exclude
    ensures (forall line :: line in Split(exclude, '\n') ==> TrimSpace(line) != "/.codex/config.toml") ==>
      Split(Excluded(exclude), '\n') == WithoutLast(Split(exclude, '\n')) + ["", "# Pact machine-local agent configuration", "/.codex/config.toml", ""]
  {
    EntryIsTrimmed();
    AddedLines(exclude, EXCLUDE_NOTE, ENTRY);
    hide TrimSpace, Split, WithoutLast;
    var entry, note := ENTRY, EXCLUDE_NOTE;
    assert entry == "/.codex/config.toml" && note == "# Pact machine-local agent configuration";
  }

  lemma EndedLines(text: string)
    ensures Split(EndedText(text), '\n') == WithoutLast(Split(text, '\n')) + [""]
  {
    EndsEmpty(text);
    assert Split("", '\n') == [""];
    hide Split;
    assert text + "\n" == text + ['\n'] + "";
    SplitConcat(text, "", '\n');
  }

  lemma FourLines(before: seq<string>, note: string, entry: string)
    ensures (before + [""]) + [note, entry, ""] == before + ["", note, entry, ""]
  {
  }

  /** Two lines behind an empty one, after whatever was there. */
  lemma AddedLines(text: string, note: string, entry: string)
    requires '\n' !in note && '\n' !in entry
    ensures Split(EndedText(text) + ['\n'] + (note + ['\n'] + (entry + ['\n'] + "")), '\n') == WithoutLast(Split(text, '\n')) + ["", note, entry, ""]
  {
    hide Split, EndedText, WithoutLast;
    EndedLines(text);
    TwoLines(note, entry);
    SplitConcat(EndedText(text), note + ['\n'] + (entry + ['\n'] + ""), '\n');
    FourLines(WithoutLast(Split(text, '\n')), note, entry);
  }

  lemma TwoLines(note: string, entry: string)
    requires '\n' !in note && '\n' !in entry
    ensures Split(note + ['\n'] + (entry + ['\n'] + ""), '\n') == [note, entry, ""]
  {
    assert Split("", '\n') == [""];
    hide Split;
    SplitWhole(entry, '\n');
    SplitWhole(note, '\n');
    SplitConcat(note, entry + ['\n'] + "", '\n');
    SplitConcat(entry, "", '\n');
  }

  class Checkout {
    var config: Option<string>
    var exclude: string

    constructor (config: Option<string>, exclude: string)
      ensures this.config == config && this.exclude == exclude
    {
      this.config, this.exclude := config, exclude;
    }

    /** ensureLocalExclude: looks through the lines, and appends only when none is the entry. */
    method EnsureLocalExclude() returns (added: bool)
      modifies this`exclude
      ensures added == !Lists(old(exclude))
      ensures exclude == Excluded(old(exclude))
    {
      hide TrimSpace;
      var lines := Split(exclude, '\n');
      var i := 0;
      while i < |lines|
        invariant 0 <= i <= |lines|
        invariant forall line :: line in lines[..i] ==> TrimSpace(line) != ENTRY
      {
        if TrimSpace(lines[i]) == ENTRY {
          return false;
        }
        i := i + 1;
      }
      assert lines[..i] == lines;
      exclude := WithEntry(exclude);
      return true;
    }

    /** EnableCodex: nothing is written when the update fails or changes nothing, and a configuration file
        that is created is excluded from Git. */
    method EnableCodex(command: string, root: string) returns (r: Result<Enabled, Error>)
      modifies this
      ensures var before := if old(config).Some? then old(config).value else "";
        match UpdateConfig(before, command, root)
        case Err(error) => r == Err(error) && config == old(config) && exclude == old(exclude)
        case Ok(updated) =>
          && r.Ok?
          && r.value.created == old(config).None?
          && r.value.changed == (updated != before)
          && r.value.excluded == (old(config).None? && updated != before && !Lists(old(exclude)))
          && config == (if updated != before then Some(updated) else old(config))
          && exclude == (if old(config).None? && updated != before then Excluded(old(exclude)) else old(exclude))
    {
      hide UpdateConfig, Excluded, Lists;
      var existing := if config.Some? then config.value else "";
      var updated := UpdateConfig(existing, command, root);
      if updated.Err? {
        return Err(updated.error);
      }
      var created, changed, excluded := config.None?, existing != updated.value, false;
      if changed {
        if created {
          excluded := EnsureLocalExclude();
        }
        config := Some(updated.value);
      }
      return Ok(Enabled(created, changed, excluded));
    }
  }

  /** Enabling Codex again with the same paths writes nothing. */
  method EnableTwice(checkout: Checkout, command: string, root: string) returns (first: Result<Enabled, Error>, second: Result<Enabled, Error>)
    requires Quoted(command) && Quoted(root) && Clear(command) && Clear(root)
    modifies checkout
    ensures first.Ok? ==> second.Ok? && !second.value.changed
  {
    hide UpdateConfig, Clear;
    first := checkout.EnableCodex(command, root);
    ghost var before := if old(checkout.config).Some? then old(checkout.config).value else "";
    if first.Ok? {
      UpdateIsIdempotent(before, command, root);
      UpdateIsNotEmpty(before, command, root);
    }
    second := checkout.EnableCodex(command, root);
  }

  lemma UpdateIsNotEmpty(text: string, command: string, root: string)
    requires UpdateConfig(text, command, root).Ok?
    ensures UpdateConfig(text, command, root).value != ""
  {
    BlockEnds(command, root);
    UpdateShape(text, command, root);
    hide UpdateConfig, ManagedBlock;
  }
}
