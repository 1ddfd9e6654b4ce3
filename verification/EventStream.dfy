/** The resumable event stream: the desktop's hand-written reader of server-sent events, the frames the
    server writes, and the reconnect loop between them. */
module EventStream {
  import opened Text

  // ---- The reader ----

  datatype Emission = Emission(id: string, data: string)

  /** The variables of readSSE, and what it has emitted so far. */
  datatype Reader = Reader(cursor: string, eventID: string, data: seq<string>, emitted: seq<Emission>)

  /** json.Valid, as far as this model needs it. */
  type Validator = string -> bool

  function Flush(r: Reader, valid: Validator): Reader
  {
    if r.data == [] then r.(eventID := "")
    else
      var body := Join(r.data, '\n');
      if valid(body) then
        Reader(if r.eventID != "" then r.eventID else r.cursor, "", [], r.emitted + [Emission(r.eventID, body)])
      else r.(eventID := "", data := [])
  }

  function DropCR(line: string): string
  {
    if line != "" && line[|line| - 1] == '\r' then line[..|line| - 1] else line
  }

  /** strings.Cut at the first colon; a line without one is all field. */
  function Cut(line: string): (string, string)
  {
    if line == "" then ("", "")
    else if line[0] == ':' then ("", line[1..])
    else var (field, value) := Cut(line[1..]); ([line[0]] + field, value)
  }

  function DropSpace(value: string): string
  {
    if value != "" && value[0] == ' ' then value[1..] else value
  }

  /** One line of input; the scanner drops a carriage return and the reader one more. */
  function Accept(r: Reader, raw: string, valid: Validator): Reader
  {
    var line := DropCR(DropCR(raw));
    if line == "" then Flush(r, valid)
    else if line[0] == ':' then r
    else
      var (field, rest) := Cut(line);
      var value := DropSpace(rest);
      if field == "id" then (if '\0' in value then r else r.(eventID := value))
      else if field == "data" then r.(data := r.data + [value])
      else r
  }

  function AcceptAll(r: Reader, lines: seq<string>, valid: Validator): Reader
    decreases |lines|
  {
    if lines == [] then r else AcceptAll(Accept(r, lines[0], valid), lines[1..], valid)
  }

  /** bufio.ScanLines: an empty rest after the last newline is not a line. */
  function ScanLines(s: string): seq<string>
  {
    var parts := Split(s, '\n');
    if parts[|parts| - 1] == "" then parts[..|parts| - 1] else parts
  }

  function Fresh(cursor: string): Reader
  {
    Reader(cursor, "", [], [])
  }

  /** readSSE on everything a connection delivered before it ended. */
  function ReadAll(received: string, cursor: string, valid: Validator): Reader
  {
    Flush(AcceptAll(Fresh(cursor), ScanLines(received), valid), valid)
  }

  /** readSSE. */
  method ReadSSE(received: string, cursor: string, valid: Validator) returns (next: string, emitted: seq<Emission>)
    ensures next == ReadAll(received, cursor, valid).cursor
    ensures emitted == ReadAll(received, cursor, valid).emitted
  {
    var lines := ScanLines(received);
    next := cursor;
    emitted := [];
    var eventID := "";
    var data: seq<string> := [];
    var i := 0;
    assert lines[0..] == lines;
    while i < |lines|
      invariant 0 <= i <= |lines|
      invariant AcceptAll(Reader(next, eventID, data, emitted), lines[i..], valid) == AcceptAll(Fresh(cursor), lines, valid)
    {
      assert lines[i..][0] == lines[i] && lines[i..][1..] == lines[i + 1..];
      var line := DropCR(DropCR(lines[i]));
      i := i + 1;
      if line == "" {
        next, eventID, data, emitted := FlushEvent(next, eventID, data, emitted, valid);
        continue;
      }
      if line[0] == ':' {
        continue;
      }
      var (field, rest) := Cut(line);
      var value := DropSpace(rest);
      if field == "id" {
        if '\0' !in value {
          eventID := value;
        }
      } else if field == "data" {
        data := data + [value];
      }
    }
    next, eventID, data, emitted := FlushEvent(next, eventID, data, emitted, valid);
  }

  /** The closure flush of readSSE, over the variables it captures. */
  method FlushEvent(cursor: string, eventID: string, data: seq<string>, emitted: seq<Emission>, valid: Validator)
    returns (next: string, id: string, rest: seq<string>, now: seq<Emission>)
    ensures Reader(next, id, rest, now) == Flush(Reader(cursor, eventID, data, emitted), valid)
  {
    next, id, rest, now := cursor, eventID, data, emitted;
    if |data| == 0 {
      id := "";
      return;
    }
    var body := Join(data, '\n');
    if valid(body) {
      if eventID != "" {
        next := eventID;
      }
      now := emitted + [Emission(eventID, body)];
    }
    id := "";
    rest := [];
  }

  // ---- The server ----

  /** An event of the log as the stream shows it; the n-th event of the log has sequence n. */
  datatype StreamEvent = StreamEvent(name: string, body: string)

  predicate OneLine(s: string)
  {
    '\n' !in s && '\r' !in s
  }

  /** Names are safe characters and bodies encoded JSON objects: one line each, not empty, valid as a
      whole, and valid in no proper prefix. */
  ghost predicate Encoded(e: StreamEvent, valid: Validator)
  {
    && OneLine(e.name) && OneLine(e.body)
    && e.body != "" && valid(e.body)
    && forall p :: p < e.body ==> !valid(p)
  }

  function IdLine(n: nat): string { "id: " + Decimal(n) }

  function NameLine(e: StreamEvent): string { "event: " + e.name }

  function DataLine(e: StreamEvent): string { "data: " + e.body }

  function Frame(e: StreamEvent, n: nat): string
  {
    IdLine(n) + ['\n'] + (NameLine(e) + ['\n'] + (DataLine(e) + ['\n'] + ("" + ['\n'] + "")))
  }

  /** What one connection carries: comments, and the next event of the log. */
  datatype Piece = Comment(text: string) | Next

  function CommentFrame(text: string): string
  {
    ":" + text + ['\n'] + ("" + ['\n'] + "")
  }

  /** The bytes written after the given sequence, following a layout of comments and events. */
  function Serve(log: seq<StreamEvent>, after: nat, layout: seq<Piece>): string
    decreases |layout|
  {
    if layout == [] then ""
    else
      match layout[0]
      case Comment(text) => CommentFrame(text) + Serve(log, after, layout[1..])
      case Next =>
        if after < |log| then Frame(log[after], after + 1) + Serve(log, after + 1, layout[1..])
        else Serve(log, after, layout[1..])
  }

  /** The sequence up to which events have arrived when a connection ends after so many bytes: an event
      has arrived with the last byte of its data line, two bytes before the end of its frame. */
  function Arrived(log: seq<StreamEvent>, after: nat, layout: seq<Piece>, bytes: nat): (m: nat)
    ensures after <= m && (after <= |log| ==> m <= |log|)
    decreases |layout|
  {
    if layout == [] then after
    else
      match layout[0]
      case Comment(text) =>
        if bytes < |CommentFrame(text)| then after else Arrived(log, after, layout[1..], bytes - |CommentFrame(text)|)
      case Next =>
        if after >= |log| then Arrived(log, after, layout[1..], bytes)
        else
          var size := |Frame(log[after], after + 1)|;
          if bytes + 2 < size then after
          else if bytes < size then after + 1
          else Arrived(log, after + 1, layout[1..], bytes - size)
  }

  /** The sequence up to which a layout serves events. */
  function Served(log: seq<StreamEvent>, after: nat, layout: seq<Piece>): nat
    decreases |layout|
  {
    if layout == [] then after
    else Served(log, if layout[0].Next? && after < |log| then after + 1 else after, layout[1..])
  }

  ghost predicate Tidy(layout: seq<Piece>)
  {
    forall i :: 0 <= i < |layout| && layout[i].Comment? ==> OneLine(layout[i].text)
  }

  /** The events of the log from one sequence to another, as the reader emits them. */
  function Emissions(log: seq<StreamEvent>, from: nat, to: nat): (r: seq<Emission>)
    requires from <= to <= |log|
    ensures |r| == to - from
  {
    seq(to - from, i requires 0 <= i < to - from => Emission(Decimal(from + i + 1), log[from + i].body))
  }

  function CursorAt(cursor: string, from: nat, to: nat): string
  {
    if to > from then Decimal(to) else cursor
  }

  // ---- Lines ----

  lemma {:induction false} AcceptConcat(r: Reader, a: seq<string>, b: seq<string>, valid: Validator)
    ensures AcceptAll(r, a + b, valid) == AcceptAll(AcceptAll(r, a, valid), b, valid)
    decreases |a|
  {
    if a == [] {
      assert a + b == b;
    } else {
      assert (a + b)[0] == a[0] && (a + b)[1..] == a[1..] + b;
      AcceptConcat(Accept(r, a[0], valid), a[1..], b, valid);
    }
  }

  /** The reader on raw text: a last empty line makes no difference, because the end flushes anyway. */
  function Digest(r: Reader, s: string, valid: Validator): Reader
  {
    Flush(AcceptAll(r, Split(s, '\n'), valid), valid)
  }

  lemma ReadAllIsDigest(received: string, cursor: string, valid: Validator)
    ensures ReadAll(received, cursor, valid) == Digest(Fresh(cursor), received, valid)
  {
    var parts := Split(received, '\n');
    if parts[|parts| - 1] == "" {
      var before := parts[..|parts| - 1];
      assert parts == before + [""];
      AcceptConcat(Fresh(cursor), before, [""], valid);
      assert [""][1..] == [];
    }
  }

  /** Text with a line in front: that line first, then the rest. */
  lemma DigestLine(r: Reader, line: string, rest: string, valid: Validator)
    requires '\n' !in line
    ensures Digest(r, line + ['\n'] + rest, valid) == Digest(Accept(r, line, valid), rest, valid)
  {
    SplitWhole(line, '\n');
    SplitConcat(line, rest, '\n');
    AcceptConcat(r, [line], Split(rest, '\n'), valid);
    assert [line][1..] == [];
  }

  lemma DigestLast(r: Reader, line: string, valid: Validator)
    requires '\n' !in line
    ensures Digest(r, line, valid) == Flush(Accept(r, line, valid), valid)
  {
    SplitWhole(line, '\n');
    assert [line][1..] == [];
    assert AcceptAll(r, [line], valid) == AcceptAll(Accept(r, line, valid), [], valid);
  }

  lemma {:induction false} CutAtColon(field: string, value: string)
    requires ':' !in field
    ensures Cut(field + ":" + value) == (field, value)
  {
    if field == "" {
      assert (field + ":" + value)[1..] == value;
    } else {
      assert (field + ":" + value)[1..] == field[1..] + ":" + value;
      CutAtColon(field[1..], value);
      assert [field[0]] + field[1..] == field;
    }
  }

  lemma {:induction false} CutWithoutColon(line: string)
    requires ':' !in line
    ensures Cut(line) == (line, "")
  {
    if line != "" {
      CutWithoutColon(line[1..]);
      assert [line[0]] + line[1..] == line;
    }
  }

  /** A prefix of a line and more text is a prefix of the line, or the line and a prefix of the text. */
  lemma PrefixOfLine(p: string, line: string, rest: string)
    requires p <= line + ['\n'] + rest
    ensures p <= line || (|p| > |line| && p == line + ['\n'] + p[|line| + 1..] && p[|line| + 1..] <= rest)
  {
    var whole := line + ['\n'] + rest;
    if |p| <= |line| {
      assert forall i :: 0 <= i < |p| ==> p[i] == whole[i] == line[i];
    } else {
      assert forall i :: 0 <= i < |p| ==> p[i] == whole[i];
      assert p[..|line|] == line && p[|line|] == '\n';
      forall i | 0 <= i < |p| - |line| - 1 ensures p[|line| + 1..][i] == rest[i] {
        assert p[|line| + 1 + i] == whole[|line| + 1 + i];
      }
    }
  }

  // ---- One line, whole or cut ----

  function Idle(cursor: string, emitted: seq<Emission>): Reader
  {
    Reader(cursor, "", [], emitted)
  }

  /** A line that begins with neither a colon nor one of the known letters changes nothing. */
  lemma OtherLine(r: Reader, line: string, valid: Validator)
    requires line != "" && line[0] != ':' && line[0] != 'd' && '\r' !in line
    ensures Accept(r, line, valid) == r.(eventID := Accept(r, line, valid).eventID)
    ensures line[0] != 'i' ==> Accept(r, line, valid) == r
  {
    assert Cut(line).0[0] == line[0];
  }

  lemma WholeIdLine(cursor: string, emitted: seq<Emission>, n: nat, valid: Validator)
    ensures OneLine(IdLine(n))
    ensures Accept(Idle(cursor, emitted), IdLine(n), valid) == Reader(cursor, Decimal(n), [], emitted)
  {
    DecimalIsDigits(n);
    hide Decimal;
    var digits := Decimal(n);
    assert forall i :: 0 <= i < |digits| ==> digits[i] != '\0' && digits[i] != '\r' && digits[i] != '\n';
    assert IdLine(n) == "id" + ":" + (" " + digits);
    CutAtColon("id", " " + digits);
    assert (" " + digits)[1..] == digits;
    assert forall i :: 0 <= i < |IdLine(n)| ==> IdLine(n)[i] != '\r' && IdLine(n)[i] != '\n';
  }

  lemma CommentLine(r: Reader, text: string, valid: Validator)
    requires OneLine(text)
    ensures Accept(r, ":" + text, valid) == r
  {
    assert forall c :: c in ":" + text ==> c == ':' || c in text;
  }

  /** A data line, whole or cut anywhere, followed by the end of the stream: it is emitted exactly when
      the body is all there. */
  lemma DataPrefix(cursor: string, id: string, emitted: seq<Emission>, e: StreamEvent, p: string, valid: Validator)
    requires Encoded(e, valid) && id != "" && p <= DataLine(e)
    ensures var r := Flush(Accept(Reader(cursor, id, [], emitted), p, valid), valid);
      r == if p == DataLine(e) then Idle(id, emitted + [Emission(id, e.body)]) else Idle(cursor, emitted)
    ensures p == DataLine(e) ==>
      Accept(Reader(cursor, id, [], emitted), p, valid) == Reader(cursor, id, [e.body], emitted)
  {
    assert forall c :: c in p ==> c in DataLine(e);
    assert '\r' !in p;
    if |p| < 4 {
      ShortData(cursor, id, emitted, p, valid);
    } else {
      var x := if |p| >= 6 then p[6..] else "";
      DataValue(Reader(cursor, id, [], emitted), e, p, x, valid);
      assert x <= e.body;
      assert x != e.body ==> !valid(x);
      assert Join([x], '\n') == x;
    }
  }

  lemma ShortData(cursor: string, id: string, emitted: seq<Emission>, p: string, valid: Validator)
    requires |p| < 4 && p <= "data"
    ensures Flush(Accept(Reader(cursor, id, [], emitted), p, valid), valid) == Idle(cursor, emitted)
  {
    assert p == "data"[..|p|];
    CutWithoutColon(p);
  }

  /** A data line cut after its field name gives the part of the body that is there. */
  lemma DataValue(r: Reader, e: StreamEvent, p: string, x: string, valid: Validator)
    requires p <= DataLine(e) && |p| >= 4 && '\r' !in p && x == if |p| >= 6 then p[6..] else ""
    ensures Accept(r, p, valid) == r.(data := r.data + [x])
  {
    assert p[..4] == "data";
    if |p| == 4 {
      assert p == "data";
      CutWithoutColon("data");
    } else {
      assert p == "data" + ":" + p[5..];
      CutAtColon("data", p[5..]);
    }
  }

  /** The text after the id line, cut anywhere. */
  lemma AfterIdPrefix(cursor: string, id: string, emitted: seq<Emission>, e: StreamEvent, p: string, valid: Validator)
    requires Encoded(e, valid) && id != "" && p <= NameLine(e) + ['\n'] + (DataLine(e) + ['\n'] + ("" + ['\n'] + ""))
    ensures var r := Digest(Reader(cursor, id, [], emitted), p, valid);
      r == if |p| >= |NameLine(e)| + 1 + |DataLine(e)| then Idle(id, emitted + [Emission(id, e.body)]) else Idle(cursor, emitted)
  {
    PrefixOfLine(p, NameLine(e), DataLine(e) + ['\n'] + ("" + ['\n'] + ""));
    assert forall c :: c in NameLine(e) ==> c != '\n' && c != '\r';
    if p <= NameLine(e) {
      assert forall c :: c in p ==> c in NameLine(e);
      DigestLast(Reader(cursor, id, [], emitted), p, valid);
      if p != "" {
        OtherLine(Reader(cursor, id, [], emitted), p, valid);
      }
    } else {
      DigestLine(Reader(cursor, id, [], emitted), NameLine(e), p[|NameLine(e)| + 1..], valid);
      OtherLine(Reader(cursor, id, [], emitted), NameLine(e), valid);
      AfterNamePrefix(cursor, id, emitted, e, p[|NameLine(e)| + 1..], valid);
    }
  }

  lemma AfterNamePrefix(cursor: string, id: string, emitted: seq<Emission>, e: StreamEvent, p: string, valid: Validator)
    requires Encoded(e, valid) && id != "" && p <= DataLine(e) + ['\n'] + ("" + ['\n'] + "")
    ensures var r := Digest(Reader(cursor, id, [], emitted), p, valid);
      r == if |p| >= |DataLine(e)| then Idle(id, emitted + [Emission(id, e.body)]) else Idle(cursor, emitted)
  {
    PrefixOfLine(p, DataLine(e), "" + ['\n'] + "");
    assert forall c :: c in DataLine(e) ==> c != '\n' && c != '\r';
    if p <= DataLine(e) {
      assert forall c :: c in p ==> c in DataLine(e);
      DigestLast(Reader(cursor, id, [], emitted), p, valid);
      DataPrefix(cursor, id, emitted, e, p, valid);
    } else {
      var rest := p[|DataLine(e)| + 1..];
      DigestLine(Reader(cursor, id, [], emitted), DataLine(e), rest, valid);
      DataPrefix(cursor, id, emitted, e, DataLine(e), valid);
      EndOfEvent(Reader(cursor, id, [e.body], emitted), rest, valid);
      assert Join([e.body], '\n') == e.body;
    }
  }

  /** What follows the data line flushes, whether or not the blank line is complete. */
  lemma EndOfEvent(r: Reader, rest: string, valid: Validator)
    requires rest <= "\n"
    ensures Digest(r, rest, valid) == Flush(r, valid)
  {
    if rest == "" {
      DigestLast(r, "", valid);
    } else {
      assert rest == "" + ['\n'] + "";
      DigestLine(r, "", "", valid);
      DigestLast(Accept(r, "", valid), "", valid);
    }
  }

  /** A frame cut anywhere, and the end of the stream after it: the event is emitted with its id as the
      new cursor if the data line is all there, and otherwise nothing has happened. */
  lemma FramePrefix(cursor: string, emitted: seq<Emission>, e: StreamEvent, n: nat, p: string, valid: Validator)
    requires Encoded(e, valid) && p <= Frame(e, n)
    ensures var r := Digest(Idle(cursor, emitted), p, valid);
      r == if |p| + 2 >= |Frame(e, n)| then Idle(Decimal(n), emitted + [Emission(Decimal(n), e.body)]) else Idle(cursor, emitted)
  {
    PrefixOfLine(p, IdLine(n), NameLine(e) + ['\n'] + (DataLine(e) + ['\n'] + ("" + ['\n'] + "")));
    WholeIdLine(cursor, emitted, n, valid);
    if p <= IdLine(n) {
      assert forall c :: c in p ==> c in IdLine(n);
      DigestLast(Idle(cursor, emitted), p, valid);
      if p != "" {
        OtherLine(Idle(cursor, emitted), p, valid);
      }
    } else {
      var rest := p[|IdLine(n)| + 1..];
      DigestLine(Idle(cursor, emitted), IdLine(n), rest, valid);
      AfterIdPrefix(cursor, Decimal(n), emitted, e, rest, valid);
    }
  }

  /** A whole frame with more text behind it emits its event and moves the cursor there. */
  lemma WholeFrame(cursor: string, emitted: seq<Emission>, e: StreamEvent, n: nat, rest: string, valid: Validator)
    requires Encoded(e, valid)
    ensures Digest(Idle(cursor, emitted), Frame(e, n) + rest, valid) ==
      Digest(Idle(Decimal(n), emitted + [Emission(Decimal(n), e.body)]), rest, valid)
  {
    hide Digest, IdLine, NameLine, DataLine;
    var named := DataLine(e) + ['\n'] + ("" + ['\n'] + rest);
    assert Frame(e, n) + rest == IdLine(n) + ['\n'] + (NameLine(e) + ['\n'] + named);
    WholeIdLine(cursor, emitted, n, valid);
    DigestLine(Idle(cursor, emitted), IdLine(n), NameLine(e) + ['\n'] + named, valid);
    FrameTail(cursor, Decimal(n), emitted, e, rest, valid);
  }

  lemma FrameTail(cursor: string, id: string, emitted: seq<Emission>, e: StreamEvent, rest: string, valid: Validator)
    requires Encoded(e, valid) && id != ""
    ensures Digest(Reader(cursor, id, [], emitted), NameLine(e) + ['\n'] + (DataLine(e) + ['\n'] + ("" + ['\n'] + rest)), valid) ==
      Digest(Idle(id, emitted + [Emission(id, e.body)]), rest, valid)
  {
    assert forall c :: c in NameLine(e) || c in DataLine(e) ==> c != '\n' && c != '\r';
    hide Digest;
    var tail, r := "" + ['\n'] + rest, Reader(cursor, id, [], emitted);
    DigestLine(r, NameLine(e), DataLine(e) + ['\n'] + tail, valid);
    OtherLine(r, NameLine(e), valid);
    DigestLine(r, DataLine(e), tail, valid);
    DataPrefix(cursor, id, emitted, e, DataLine(e), valid);
    DigestLine(Reader(cursor, id, [e.body], emitted), "", rest, valid);
    assert Join([e.body], '\n') == e.body;
  }

  lemma WholeComment(cursor: string, emitted: seq<Emission>, text: string, rest: string, valid: Validator)
    requires OneLine(text)
    ensures Digest(Idle(cursor, emitted), CommentFrame(text) + rest, valid) == Digest(Idle(cursor, emitted), rest, valid)
  {
    hide Digest;
    var r := Idle(cursor, emitted);
    assert CommentFrame(text) + rest == (":" + text) + ['\n'] + ("" + ['\n'] + rest);
    DigestLine(r, ":" + text, "" + ['\n'] + rest, valid);
    CommentLine(r, text, valid);
    DigestLine(r, "", rest, valid);
  }

  lemma CommentPrefix(cursor: string, emitted: seq<Emission>, text: string, p: string, valid: Validator)
    requires OneLine(text) && p <= CommentFrame(text)
    ensures Digest(Idle(cursor, emitted), p, valid) == Idle(cursor, emitted)
  {
    var r := Idle(cursor, emitted);
    PrefixOfLine(p, ":" + text, "" + ['\n'] + "");
    if p <= ":" + text {
      if p == "" {
        DigestLast(r, p, valid);
      } else {
        assert p == ":" + p[1..] && forall c :: c in p[1..] ==> c in text;
        DigestLast(r, p, valid);
        CommentLine(r, p[1..], valid);
      }
    } else {
      DigestLine(r, ":" + text, p[|text| + 2..], valid);
      CommentLine(r, text, valid);
      EndOfEvent(r, p[|text| + 2..], valid);
    }
  }

  // ---- One connection ----

  /** Two texts one after the other, cut: the cut is in the first, or the first is whole. */
  lemma PrefixOfConcat(p: string, a: string, b: string)
    requires p <= a + b
    ensures if |p| < |a| then p <= a else p == a + p[|a|..] && p[|a|..] <= b
  {
    if |p| < |a| {
      assert forall i :: 0 <= i < |p| ==> p[i] == (a + b)[i] == a[i];
    } else {
      assert p[..|a|] == a by {
        assert forall i :: 0 <= i < |a| ==> p[i] == (a + b)[i];
      }
      assert forall i :: 0 <= i < |p| - |a| ==> p[|a|..][i] == (a + b)[|a| + i] == b[i];
    }
  }

  lemma EmissionsSnoc(log: seq<StreamEvent>, from: nat, to: nat)
    requires from < to <= |log|
    ensures Emissions(log, from, to) == [Emission(Decimal(from + 1), log[from].body)] + Emissions(log, from + 1, to)
  {
  }

  /** What one connection carries, cut at any byte: the reader emits exactly the events that have arrived
      after the cursor, in order, and the last of them is its new cursor. */
  lemma {:induction false} OneConnection(
    log: seq<StreamEvent>, after: nat, layout: seq<Piece>, p: string, cursor: string, emitted: seq<Emission>, valid: Validator)
    requires after <= |log| && Tidy(layout) && p <= Serve(log, after, layout)
    requires forall e :: e in log ==> Encoded(e, valid)
    ensures var m := Arrived(log, after, layout, |p|);
      Digest(Idle(cursor, emitted), p, valid) == Idle(CursorAt(cursor, after, m), emitted + Emissions(log, after, m))
    decreases |layout|
  {
    hide Digest, Frame, CommentFrame;
    if layout == [] {
      EndOfEvent(Idle(cursor, emitted), "", valid);
    } else if layout[0].Comment? {
      var text, rest := layout[0].text, Serve(log, after, layout[1..]);
      PrefixOfConcat(p, CommentFrame(text), rest);
      if |p| < |CommentFrame(text)| {
        CommentPrefix(cursor, emitted, text, p, valid);
      } else {
        OneConnection(log, after, layout[1..], p[|CommentFrame(text)|..], cursor, emitted, valid);
        WholeComment(cursor, emitted, text, p[|CommentFrame(text)|..], valid);
      }
    } else if after < |log| {
      NextEvent(log, after, layout, p, cursor, emitted, valid);
    } else {
      OneConnection(log, after, layout[1..], p, cursor, emitted, valid);
    }
  }

  lemma {:induction false} NextEvent(
    log: seq<StreamEvent>, after: nat, layout: seq<Piece>, p: string, cursor: string, emitted: seq<Emission>, valid: Validator)
    requires after < |log| && Tidy(layout) && layout != [] && layout[0].Next? && p <= Serve(log, after, layout)
    requires forall e :: e in log ==> Encoded(e, valid)
    ensures var m := Arrived(log, after, layout, |p|);
      Digest(Idle(cursor, emitted), p, valid) == Idle(CursorAt(cursor, after, m), emitted + Emissions(log, after, m))
    decreases |layout|, 0
  {
    hide Digest, Frame, Encoded;
    var e, id := log[after], Decimal(after + 1);
    var now := emitted + [Emission(id, e.body)];
    var frame := Frame(e, after + 1);
    assert e in log;
    PrefixOfConcat(p, frame, Serve(log, after + 1, layout[1..]));
    if |p| < |frame| {
      FramePrefix(cursor, emitted, e, after + 1, p, valid);
      if |p| + 2 < |frame| {
        assert emitted + Emissions(log, after, after) == emitted;
      } else {
        EmissionsSnoc(log, after, after + 1);
        assert now == emitted + Emissions(log, after, after + 1);
      }
    } else {
      OneConnection(log, after + 1, layout[1..], p[|frame|..], id, now, valid);
      WholeFrame(cursor, emitted, e, after + 1, p[|frame|..], valid);
      var m := Arrived(log, after, layout, |p|);
      EmissionsSnoc(log, after, m);
      assert now + Emissions(log, after + 1, m) == emitted + Emissions(log, after, m);
    }
  }

  /** A connection that is not cut delivers all that it serves. */
  lemma {:induction false} UncutDeliversAll(log: seq<StreamEvent>, after: nat, layout: seq<Piece>, bytes: nat)
    requires bytes >= |Serve(log, after, layout)|
    ensures Arrived(log, after, layout, bytes) == Served(log, after, layout)
    decreases |layout|
  {
    hide Frame, CommentFrame;
    if layout != [] {
      match layout[0]
      case Comment(text) => UncutDeliversAll(log, after, layout[1..], bytes - |CommentFrame(text)|);
      case Next =>
        if after < |log| {
          UncutDeliversAll(log, after + 1, layout[1..], bytes - |Frame(log[after], after + 1)|);
        } else {
          UncutDeliversAll(log, after, layout[1..], bytes);
        }
    }
  }

  /** A connection cut behind the first pieces of its layout delivers every event among them. */
  lemma {:induction false} WholeFramesArrive(log: seq<StreamEvent>, after: nat, whole: seq<Piece>, rest: seq<Piece>, bytes: nat)
    requires bytes >= |Serve(log, after, whole)|
    ensures Arrived(log, after, whole + rest, bytes) >= Served(log, after, whole)
    decreases |whole|
  {
    hide Frame, CommentFrame;
    if whole == [] {
      assert whole + rest == rest;
    } else {
      assert (whole + rest)[0] == whole[0] && (whole + rest)[1..] == whole[1..] + rest;
      match whole[0]
      case Comment(text) => WholeFramesArrive(log, after, whole[1..], rest, bytes - |CommentFrame(text)|);
      case Next =>
        if after < |log| {
          WholeFramesArrive(log, after + 1, whole[1..], rest, bytes - |Frame(log[after], after + 1)|);
        } else {
          WholeFramesArrive(log, after, whole[1..], rest, bytes);
        }
    }
  }

  /** The number of events for which a layout has room. */
  function Room(layout: seq<Piece>): nat
    decreases |layout|
  {
    if layout == [] then 0 else (if layout[0].Next? then 1 else 0) + Room(layout[1..])
  }

  lemma {:induction false} ServedIsRoomOrAll(log: seq<StreamEvent>, after: nat, layout: seq<Piece>)
    requires after <= |log|
    ensures Served(log, after, layout) == if after + Room(layout) < |log| then after + Room(layout) else |log|
    decreases |layout|
  {
    if layout != [] {
      ServedIsRoomOrAll(log, if layout[0].Next? && after < |log| then after + 1 else after, layout[1..]);
    }
  }

  // ---- The reconnect loop ----

  /** What the server makes of Last-Event-ID. */
  function ParseCursor(cursor: string): int
  {
    if cursor == "" then 0 else NumeralValue(cursor)
  }

  /** A connection that is refused, or one that is cut after so many bytes of what the server writes. */
  datatype Connection = Unreachable | Connected(layout: seq<Piece>, cut: nat)

  function Received(log: seq<StreamEvent>, cursor: string, c: Connection): string
  {
    match c
    case Unreachable => ""
    case Connected(layout, cut) =>
      var text := Serve(log, if ParseCursor(cursor) < 0 then 0 else ParseCursor(cursor), layout);
      text[..if cut < |text| then cut else |text|]
  }

  /** A cursor that stands for the n-th event of the log, or for the beginning. */
  predicate CursorFor(cursor: string, n: nat)
  {
    cursor == Decimal(n) || (cursor == "" && n == 0)
  }

  lemma ParsedCursor(cursor: string, n: nat)
    requires CursorFor(cursor, n)
    ensures ParseCursor(cursor) == n
  {
    DecimalValue(n);
  }

  lemma EmissionsConcat(log: seq<StreamEvent>, from: nat, mid: nat, to: nat)
    requires from <= mid <= to <= |log|
    ensures Emissions(log, from, mid) + Emissions(log, mid, to) == Emissions(log, from, to)
  {
  }

  /** Where one connection takes the cursor. */
  function Advance(log: seq<StreamEvent>, m: nat, c: Connection): (n: nat)
    ensures m <= n && (m <= |log| ==> n <= |log|)
  {
    match c
    case Unreachable => m
    case Connected(layout, cut) => Arrived(log, m, layout, cut)
  }

  /** Where a number of connections take it, each starting where the last one stopped. */
  function Reached(log: seq<StreamEvent>, start: nat, connections: seq<Connection>): (m: nat)
    ensures start <= m && (start <= |log| ==> m <= |log|)
  {
    if connections == [] then start
    else Advance(log, Reached(log, start, connections[..|connections| - 1]), connections[|connections| - 1])
  }

  /** One more connection of the loop. */
  lemma OneMoreConnection(log: seq<StreamEvent>, start: nat, m: nat, initial: string, c: Connection, valid: Validator)
    requires start <= m <= |log| && CursorFor(initial, start)
    requires forall e :: e in log ==> Encoded(e, valid)
    requires c.Connected? ==> Tidy(c.layout)
    ensures var cursor, n := CursorAt(initial, start, m), Advance(log, m, c);
      var r := ReadAll(Received(log, cursor, c), cursor, valid);
      r.cursor == CursorAt(initial, start, n) && Emissions(log, start, m) + r.emitted == Emissions(log, start, n)
  {
    hide Digest, ReadAll;
    var cursor, n := CursorAt(initial, start, m), Advance(log, m, c);
    ParsedCursor(cursor, m);
    ReadAllIsDigest(Received(log, cursor, c), cursor, valid);
    var layout := if c.Connected? then c.layout else [];
    OneConnection(log, m, layout, Received(log, cursor, c), cursor, [], valid);
    if c.Connected? && c.cut >= |Serve(log, m, layout)| {
      UncutDeliversAll(log, m, layout, c.cut);
      UncutDeliversAll(log, m, layout, |Serve(log, m, layout)|);
    }
    EmissionsConcat(log, start, m, n);
    assert [] + Emissions(log, m, n) == Emissions(log, m, n);
  }

  /** The loop of runProjectEventStream over any number of connections, each cut anywhere: together they
      emit exactly the events that have arrived after the initial cursor, each once, in order and without
      a gap, and the cursor is that of the last one. */
  method RunProjectEventStream(log: seq<StreamEvent>, start: nat, initial: string, connections: seq<Connection>, valid: Validator)
    returns (cursor: string, emitted: seq<Emission>)
    requires start <= |log| && CursorFor(initial, start)
    requires forall e :: e in log ==> Encoded(e, valid)
    requires forall i :: 0 <= i < |connections| && connections[i].Connected? ==> Tidy(connections[i].layout)
    ensures emitted == Emissions(log, start, Reached(log, start, connections))
    ensures cursor == CursorAt(initial, start, Reached(log, start, connections))
  {
    cursor := initial;
    emitted := [];
    var i := 0;
    assert connections[..0] == [];
    while i < |connections|
      invariant 0 <= i <= |connections|
      invariant emitted == Emissions(log, start, Reached(log, start, connections[..i]))
      invariant cursor == CursorAt(initial, start, Reached(log, start, connections[..i]))
    {
      var next, more := ReadSSE(Received(log, cursor, connections[i]), cursor, valid);
      OneMoreConnection(log, start, Reached(log, start, connections[..i]), initial, connections[i], valid);
      assert connections[..i + 1][..i] == connections[..i];
      emitted := emitted + more;
      if next != "" {
        cursor := next;
      }
      i := i + 1;
    }
    assert connections[..i] == connections;
  }

  lemma {:induction false} NeverBack(log: seq<StreamEvent>, start: nat, connections: seq<Connection>, k: nat)
    requires k <= |connections|
    ensures Reached(log, start, connections[..k]) <= Reached(log, start, connections)
    decreases |connections|
  {
    if k < |connections| {
      assert connections[..|connections| - 1][..k] == connections[..k];
      NeverBack(log, start, connections[..|connections| - 1], k);
    } else {
      assert connections[..k] == connections;
    }
  }

  /** Every connection that was not cut took the cursor past all that it served, and one cut later than
      its first pieces past every event among them. */
  lemma EveryConnectionDelivers(
    log: seq<StreamEvent>, start: nat, connections: seq<Connection>, k: nat, whole: seq<Piece>, rest: seq<Piece>)
    requires k < |connections| && connections[k].Connected? && connections[k].layout == whole + rest
    requires connections[k].cut >= |Serve(log, Reached(log, start, connections[..k]), whole)|
    ensures Served(log, Reached(log, start, connections[..k]), whole) <= Reached(log, start, connections[..k + 1]) <= Reached(log, start, connections)
    ensures rest == [] ==> Reached(log, start, connections[..k + 1]) == Served(log, Reached(log, start, connections[..k]), whole)
  {
    var m := Reached(log, start, connections[..k]);
    assert connections[..k + 1][..k] == connections[..k];
    WholeFramesArrive(log, m, whole, rest, connections[k].cut);
    if rest == [] {
      assert whole + rest == whole;
      UncutDeliversAll(log, m, whole, connections[k].cut);
    }
    NeverBack(log, start, connections, k + 1);
  }

  /** Nothing is lost: as soon as one connection is not cut and has room for what is left, the loop has
      reached the end of the log, whatever happened before and happens after. */
  lemma NothingIsLost(log: seq<StreamEvent>, start: nat, connections: seq<Connection>, k: nat)
    requires start <= |log| && k < |connections| && connections[k].Connected?
    requires connections[k].cut >= |Serve(log, Reached(log, start, connections[..k]), connections[k].layout)|
    requires Reached(log, start, connections[..k]) + Room(connections[k].layout) >= |log|
    ensures Reached(log, start, connections) == |log|
  {
    var layout := connections[k].layout;
    assert layout + [] == layout;
    EveryConnectionDelivers(log, start, connections, k, layout, []);
    ServedIsRoomOrAll(log, Reached(log, start, connections[..k]), layout);
  }

  /** No event is emitted twice, and the cursor is the id of the last one. */
  lemma EmittedOnce(log: seq<StreamEvent>, start: nat, m: nat, initial: string, i: nat, j: nat)
    requires start <= m <= |log| && i < j < m - start
    ensures Emissions(log, start, m)[i].id != Emissions(log, start, m)[j].id
    ensures CursorAt(initial, start, m) == Emissions(log, start, m)[m - start - 1].id
  {
    if Decimal(start + i + 1) == Decimal(start + j + 1) {
      DecimalIsInjective(start + i + 1, start + j + 1);
    }
  }

  // ---- Where the reader departs from section 9.2.6 of the HTML Living Standard ----

  /** An event whose blank line never came is emitted at the end of the stream; the standard discards it. */
  lemma EmittedWithoutBlankLine(n: nat, e: StreamEvent, cursor: string, valid: Validator)
    requires Encoded(e, valid)
    ensures Digest(Idle(cursor, []), IdLine(n) + ['\n'] + DataLine(e), valid) == Idle(Decimal(n), [Emission(Decimal(n), e.body)])
  {
    WholeIdLine(cursor, [], n, valid);
    assert forall c :: c in DataLine(e) ==> c != '\n' && c != '\r';
    var r := Reader(cursor, Decimal(n), [], []);
    DigestLine(Idle(cursor, []), IdLine(n), DataLine(e), valid);
    DigestLast(r, DataLine(e), valid);
    DataPrefix(cursor, Decimal(n), [], e, DataLine(e), valid);
    hide Digest;
    assert Join([e.body], '\n') == e.body;
  }

  /** An id is not sticky: an event without one is emitted with an empty id, where the standard repeats
      the last, and leaves the cursor where it was. */
  lemma IdIsNotSticky(body: string, cursor: string, emitted: seq<Emission>, valid: Validator)
    requires OneLine(body) && valid(body)
    ensures Digest(Idle(cursor, emitted), "data: " + body, valid) == Idle(cursor, emitted + [Emission("", body)])
  {
    var line := "data: " + body;
    assert forall c :: c in line ==> c != '\n' && c != '\r';
    DigestLast(Idle(cursor, emitted), line, valid);
    DataValue(Idle(cursor, emitted), StreamEvent("", body), line, body, valid);
    assert Join([body], '\n') == body;
  }
}
