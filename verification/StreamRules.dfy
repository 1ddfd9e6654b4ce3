/** What one block of a stream means to the reader, whoever wrote it: fields with or without a space behind
    the colon, comments, unknown fields, and lines that end with or without carriage returns. */
module StreamRules {
  import opened Text
  import opened EventStream

  /** What a line says. */
  datatype Line = Field(name: string, value: string) | Remark(text: string)

  /** How a line may be written, before its line end. */
  ghost predicate Says(body: string, line: Line)
  {
    match line
    case Remark(text) => body == ":" + text
    case Field(name, value) =>
      && name != "" && ':' !in name
      && (|| body == name + ":" + (" " + value)
          || (body == name + ":" + value && (value == "" || value[0] != ' '))
          || (body == name && value == ""))
  }

  /** A raw line as it arrives without its newline: at most two carriage returns are dropped. */
  ghost predicate Raw(raw: string, body: string)
  {
    && (body == "" || body[|body| - 1] != '\r')
    && (raw == body || raw == body + "\r" || raw == body + "\r\r")
  }

  ghost predicate IsLine(raw: string, line: Line)
  {
    exists body :: Raw(raw, body) && Says(body, line)
  }

  /** The value that a line gives to a field; an id with a null character in it does not count. */
  function Given(line: Line, name: string): seq<string>
  {
    if line.Field? && line.name == name && (name == "id" ==> '\0' !in line.value) then [line.value] else []
  }

  /** The values given to a field, in order. */
  function Values(lines: seq<Line>, name: string): seq<string>
  {
    if lines == [] then [] else Values(lines[..|lines| - 1], name) + Given(lines[|lines| - 1], name)
  }

  function LastOr(values: seq<string>, otherwise: string): string
  {
    if values == [] then otherwise else values[|values| - 1]
  }

  // ---- One line ----

  lemma RawMeans(raw: string, body: string)
    requires Raw(raw, body)
    ensures DropCR(DropCR(raw)) == body
  {
    if raw == body + "\r" {
      assert raw[..|raw| - 1] == body;
    } else if raw == body + "\r\r" {
      assert raw[..|raw| - 1] == body + "\r";
      assert (body + "\r")[..|body|] == body;
    }
  }

  /** The field and the value behind one space, if there is one. */
  lemma CutMeans(body: string, name: string, value: string)
    requires Says(body, Field(name, value))
    ensures body != "" && body[0] != ':' && Cut(body).0 == name && DropSpace(Cut(body).1) == value
  {
    if body == name {
      CutWithoutColon(name);
    } else if body == name + ":" + value {
      CutAtColon(name, value);
    } else {
      CutAtColon(name, " " + value);
      assert (" " + value)[1..] == value;
    }
  }

  /** An id replaces the one before, data piles up, and all else leaves no trace. */
  function Reads(r: Reader, line: Line): Reader
  {
    Reader(r.cursor, LastOr(Given(line, "id"), r.eventID), r.data + Given(line, "data"), r.emitted)
  }

  lemma AcceptMeans(r: Reader, raw: string, line: Line, valid: Validator)
    requires IsLine(raw, line)
    ensures Accept(r, raw, valid) == Reads(r, line)
  {
    var body :| Raw(raw, body) && Says(body, line);
    RawMeans(raw, body);
    hide DropCR, Cut, DropSpace, Flush, Raw;
    if line.Field? {
      CutMeans(body, line.name, line.value);
    }
    assert r.data + [] == r.data;
  }

  lemma BlankFlushes(r: Reader, raw: string, valid: Validator)
    requires raw in {"", "\r", "\r\r"}
    ensures Accept(r, raw, valid) == Flush(r, valid)
  {
    RawMeans(raw, "");
    hide DropCR, Flush;
  }

  // ---- One block ----

  ghost predicate AreLines(raws: seq<string>, lines: seq<Line>)
  {
    |raws| == |lines| && forall i :: 0 <= i < |lines| ==> IsLine(raws[i], lines[i])
  }

  lemma AcceptLast(r: Reader, raws: seq<string>, last: string, valid: Validator)
    ensures AcceptAll(r, raws + [last], valid) == Accept(AcceptAll(r, raws, valid), last, valid)
  {
    var before := AcceptAll(r, raws, valid);
    AcceptConcat(r, raws, [last], valid);
    hide Accept;
    assert [last][1..] == [];
    assert AcceptAll(before, [last], valid) == AcceptAll(Accept(before, last, valid), [], valid);
  }

  lemma LastOrConcat(a: seq<string>, b: seq<string>, otherwise: string)
    ensures LastOr(a + b, otherwise) == LastOr(b, LastOr(a, otherwise))
  {
  }

  lemma {:induction false} LinesMean(r: Reader, raws: seq<string>, lines: seq<Line>, valid: Validator)
    requires AreLines(raws, lines)
    ensures AcceptAll(r, raws, valid) == Reader(r.cursor, LastOr(Values(lines, "id"), r.eventID), r.data + Values(lines, "data"), r.emitted)
    decreases |raws|
  {
    if raws == [] {
      assert r.data + [] == r.data;
    } else {
      var n := |raws| - 1;
      LinesMean(r, raws[..n], lines[..n], valid);
      assert raws == raws[..n] + [raws[n]];
      AcceptLast(r, raws[..n], raws[n], valid);
      AcceptMeans(AcceptAll(r, raws[..n], valid), raws[n], lines[n], valid);
      hide Accept, AcceptAll, IsLine, Given, LastOr;
      LastOrConcat(Values(lines[..n], "id"), Given(lines[n], "id"), r.eventID);
      Associates(r.data, Values(lines[..n], "data"), Given(lines[n], "data"));
    }
  }

  lemma Associates(a: seq<string>, b: seq<string>, c: seq<string>)
    ensures (a + b) + c == a + (b + c)
  {
  }

  /** A block and its blank line: the data lines joined by newlines are emitted with the last proper id, if
      there are any and they are valid; the cursor moves to that id, if there is one. Otherwise nothing is
      emitted and the cursor stays. Either way the next block starts afresh. */
  lemma BlockMeans(cursor: string, emitted: seq<Emission>, raws: seq<string>, blank: string, lines: seq<Line>, valid: Validator)
    requires AreLines(raws, lines) && blank in {"", "\r", "\r\r"}
    ensures var r, id, data := AcceptAll(Reader(cursor, "", [], emitted), raws + [blank], valid), LastOr(Values(lines, "id"), ""), Values(lines, "data");
      && r.eventID == "" && r.data == []
      && (data != [] && valid(Join(data, '\n')) ==>
            r.emitted == emitted + [Emission(id, Join(data, '\n'))] && r.cursor == (if id == "" then cursor else id))
      && (data == [] || !valid(Join(data, '\n')) ==> r.emitted == emitted && r.cursor == cursor)
  {
    var start := Reader(cursor, "", [], emitted);
    var read := AcceptAll(start, raws, valid);
    LinesMean(start, raws, lines, valid);
    AcceptLast(start, raws, blank, valid);
    BlankFlushes(read, blank, valid);
    assert [] + Values(lines, "data") == Values(lines, "data");
    hide Accept, Values;
  }
}
