/** Where the managed block is, when an update is accepted and what it gives, read off the text itself. */
module CodexRules {
  import opened Wrappers
  import opened Text
  import opened CodexConfig

  // ---- Occurrences ----

  predicate Occurs(text: string, m: string, i: int)
  {
    0 <= i && i + |m| <= |text| && text[i..i + |m|] == m
  }

  lemma OccursBehind(text: string, m: string, i: int)
    requires text != "" && i > 0
    ensures Occurs(text, m, i) <==> Occurs(text[1..], m, i - 1)
  {
    if i + |m| <= |text| {
      assert text[1..][i - 1..i - 1 + |m|] == text[i..i + |m|];
    }
  }

  lemma OccursInFront(text: string, m: string)
    ensures Occurs(text, m, 0) <==> m <= text
  {
    if |m| <= |text| {
      assert text[0..|m|] == text[..|m|];
    }
  }

  lemma {:induction false} NoHitsMeans(text: string, m: string)
    requires m != ""
    ensures Hits(text, m) == 0 <==> forall i :: !Occurs(text, m, i)
    decreases |text|
  {
    OccursInFront(text, m);
    if text != "" {
      NoHitsMeans(text[1..], m);
      forall i | i > 0 ensures Occurs(text, m, i) <==> Occurs(text[1..], m, i - 1) {
        OccursBehind(text, m, i);
      }
      hide Occurs;
      if Hits(text, m) != 0 && !(m <= text) {
        var k :| Occurs(text[1..], m, k);
        NotNegative(text[1..], m, k);
        assert Occurs(text, m, k + 1);
      }
      if Hits(text, m) == 0 {
        forall i ensures !Occurs(text, m, i) {
          if i > 0 {
            OccursBehind(text, m, i);
          } else if i < 0 && Occurs(text, m, i) {
            NotNegative(text, m, i);
          }
        }
      }
    }
  }

  lemma NotNegative(text: string, m: string, i: int)
    requires Occurs(text, m, i)
    ensures i >= 0
  {
  }

  /** It stands at this place and at no other. */
  ghost predicate OnlyAt(text: string, m: string, at: int)
  {
    Occurs(text, m, at) && forall i :: Occurs(text, m, i) ==> i == at
  }

  lemma {:induction false} OneHitMeans(text: string, m: string, at: int)
    requires m != ""
    ensures OnlyAt(text, m, at) <==> Hits(text, m) == 1 && Index(text, m) == Some(at)
    decreases |text|
  {
    OccursInFront(text, m);
    if text != "" {
      var rest := text[1..];
      OneHitMeans(rest, m, at - 1);
      NoHitsMeans(rest, m);
      forall i | i > 0 ensures Occurs(text, m, i) <==> Occurs(rest, m, i - 1) {
        OccursBehind(text, m, i);
      }
      forall i | Occurs(text, m, i) ensures i >= 0 {
      }
      forall i | Occurs(rest, m, i) ensures i >= 0 && Occurs(text, m, i + 1) {
        OccursBehind(text, m, i + 1);
      }
      hide Occurs;
      OneHitStep(text, m, at);
    }
  }

  /** One character in front: the place moves by one. */
  lemma OneHitStep(text: string, m: string, at: int)
    requires text != "" && m != ""
    requires Occurs(text, m, 0) <==> m <= text
    requires OnlyAt(text[1..], m, at - 1) <==> Hits(text[1..], m) == 1 && Index(text[1..], m) == Some(at - 1)
    requires Hits(text[1..], m) == 0 <==> forall i :: !Occurs(text[1..], m, i)
    requires forall i :: i > 0 ==> (Occurs(text, m, i) <==> Occurs(text[1..], m, i - 1))
    requires forall i :: Occurs(text, m, i) ==> i >= 0
    requires forall i :: Occurs(text[1..], m, i) ==> i >= 0 && Occurs(text, m, i + 1)
    ensures OnlyAt(text, m, at) <==> Hits(text, m) == 1 && Index(text, m) == Some(at)
  {
    hide Occurs;
  }

  // ---- The block in the file ----

  ghost predicate NoMarkers(text: string)
  {
    forall i :: !Occurs(text, MANAGED_START, i) && !Occurs(text, MANAGED_END, i)
  }

  /** How much of a line ending stands here: both characters of one, or either. */
  function LineEnd(rest: string): nat
  {
    if "\r\n" <= rest then 2 else if "\r" <= rest || "\n" <= rest then 1 else 0
  }

  /** From the only start marker to behind the only end marker, which comes later, and its line ending. */
  ghost predicate BlockAt(text: string, start: int, end: int)
  {
    && OnlyAt(text, MANAGED_START, start)
    && exists last :: start <= last && OnlyAt(text, MANAGED_END, last) && EndsBehind(text, last + |MANAGED_END|, end)
  }

  predicate EndsBehind(text: string, from: int, end: int)
  {
    0 <= from <= |text| && end == from + LineEnd(text[from..])
  }

  lemma BlockEndMeans(text: string, from: nat)
    requires from <= |text|
    ensures BlockEnd(text, from) == from + LineEnd(text[from..])
  {
  }

  /** Hits, counts and positions of one marker. */
  lemma MarkerMeans(text: string, m: string)
    requires m == MANAGED_START || m == MANAGED_END
    ensures Count(text, m) == 0 <==> forall i :: !Occurs(text, m, i)
    ensures forall at :: OnlyAt(text, m, at) <==> Count(text, m) == 1 && Index(text, m) == Some(at)
  {
    Markers();
    hide Hits, Count, Index, Marker, Occurs, OnlyAt;
    CountIsHits(text, m);
    NotEmpty(m);
    NoHitsMeans(text, m);
    forall at ensures OnlyAt(text, m, at) <==> Hits(text, m) == 1 && Index(text, m) == Some(at) {
      OneHitMeans(text, m, at);
    }
  }

  lemma NotEmpty(m: string)
    requires Marker(m)
    ensures m != ""
  {
  }

  lemma IndexFits(text: string, m: string, at: int)
    requires OnlyAt(text, m, at)
    ensures 0 <= at && at + |m| <= |text|
  {
  }

  /** One marker, once, has one place. */
  lemma OnceIsSomewhere(text: string, m: string)
    requires (m == MANAGED_START || m == MANAGED_END) && Count(text, m) == 1
    ensures Index(text, m).Some? && OnlyAt(text, m, Index(text, m).value)
  {
    Markers();
    CountIsHits(text, m);
    IndexSplits(text, m);
    hide Count, Index, Hits, Marker, OnlyAt;
    MarkerMeans(text, m);
  }

  lemma FoundIsBlock(text: string, start: nat, end: nat)
    requires ManagedRange(text) == Ok(Found(start, end))
    ensures BlockAt(text, start, end)
  {
    OnceIsSomewhere(text, MANAGED_START);
    OnceIsSomewhere(text, MANAGED_END);
    hide Count, Index, OnlyAt, BlockEnd, LineEnd;
    var last := Index(text, MANAGED_END).value;
    BlockEndMeans(text, last + |MANAGED_END|);
    assert OnlyAt(text, MANAGED_END, last) && EndsBehind(text, last + |MANAGED_END|, end);
  }

  lemma OnlyAtMeans(text: string, m: string, at: int)
    requires (m == MANAGED_START || m == MANAGED_END) && OnlyAt(text, m, at)
    ensures 0 <= at && at + |m| <= |text| && Count(text, m) == 1 && Index(text, m) == Some(at)
  {
    IndexFits(text, m, at);
    MarkerMeans(text, m);
  }

  lemma BlockIsRange(text: string, start: int, end: int)
    requires BlockAt(text, start, end)
    ensures 0 <= start <= end <= |text| && ManagedRange(text) == Ok(Found(start, end))
  {
    hide Count, Index, OnlyAt, BlockEnd, LineEnd;
    var last :| start <= last && OnlyAt(text, MANAGED_END, last) && EndsBehind(text, last + |MANAGED_END|, end);
    OnlyAtMeans(text, MANAGED_START, start);
    OnlyAtMeans(text, MANAGED_END, last);
    BlockEndMeans(text, last + |MANAGED_END|);
  }

  /** The search finds nothing exactly where no marker stands, and a block exactly where there is one start
      marker, one end marker behind it and nothing else; every other text is malformed. */
  lemma RangeExactly(text: string)
    ensures ManagedRange(text) == Ok(NotFound) <==> NoMarkers(text)
    ensures forall start: nat, end: nat :: ManagedRange(text) == Ok(Found(start, end)) <==> BlockAt(text, start, end)
    ensures ManagedRange(text).Err? ==> ManagedRange(text) == Err(MalformedBlock)
  {
    MarkerMeans(text, MANAGED_START);
    MarkerMeans(text, MANAGED_END);
    hide Count, Index, OnlyAt, BlockEnd, LineEnd, Occurs, BlockAt;
    forall start: nat, end: nat ensures ManagedRange(text) == Ok(Found(start, end)) <==> BlockAt(text, start, end) {
      if ManagedRange(text) == Ok(Found(start, end)) {
        FoundIsBlock(text, start, end);
      }
      if BlockAt(text, start, end) {
        BlockIsRange(text, start, end);
      }
    }
  }

  // ---- Updates ----

  /** Some line of the text is a header of the table. */
  ghost predicate DefinedIn(text: string)
  {
    exists line, b, name, comment :: line in Split(text, '\n') && Header(line, b, name, comment)
  }

  lemma DefinedMeans(text: string)
    ensures DefinesPact(text) <==> DefinedIn(text)
  {
    hide Split, PactTable, Header;
    if DefinesPact(text) {
      var line :| line in Split(text, '\n') && PactTable(line);
      PactTableIsHeader(line);
      var b, name, comment :| Header(line, b, name, comment);
    }
    if DefinedIn(text) {
      var line, b, name, comment :| line in Split(text, '\n') && Header(line, b, name, comment);
      PactTableIsHeader(line);
    }
  }

  /** A first block goes to the end, an empty line behind what was there. */
  lemma FirstBlock(text: string, command: string, root: string)
    requires NoMarkers(text)
    ensures var r := UpdateConfig(text, command, root);
      && (r.Ok? <==> !DefinedIn(text))
      && (r.Err? ==> r == Err(AlreadyDefined))
      && (r.Ok? && text == "" ==> r.value == ManagedBlock(command, root))
      && (r.Ok? && text != "" && text[|text| - 1] == '\n' ==> r.value == text + "\n" + ManagedBlock(command, root))
      && (r.Ok? && text != "" && text[|text| - 1] != '\n' ==> r.value == text + "\n\n" + ManagedBlock(command, root))
  {
    RangeExactly(text);
    DefinedMeans(text);
    hide ManagedRange, DefinesPact, DefinedIn, ManagedBlock;
  }

  /** A block that is there gives way to the new one, unless the text around it defines the table. */
  lemma ReplacedBlock(text: string, start: int, end: int, command: string, root: string)
    requires BlockAt(text, start, end)
    ensures 0 <= start <= end <= |text|
    ensures var r := UpdateConfig(text, command, root);
      && (r.Ok? <==> !DefinedIn(text[..start] + text[end..]))
      && (r.Err? ==> r == Err(AlreadyDefined))
      && (r.Ok? ==> r.value == text[..start] + ManagedBlock(command, root) + text[end..])
  {
    BlockIsRange(text, start, end);
    DefinedMeans(text[..start] + text[end..]);
    hide ManagedRange, DefinesPact, DefinedIn, ManagedBlock, BlockAt;
  }

  /** Any other arrangement of markers is refused. */
  lemma OtherwiseMalformed(text: string, command: string, root: string)
    ensures UpdateConfig(text, command, root) == Err(MalformedBlock) <==> !NoMarkers(text) && !exists start, end :: BlockAt(text, start, end)
  {
    RangeExactly(text);
    hide ManagedRange, DefinesPact, ManagedBlock, NoMarkers, BlockAt;
    if start: int, end: int :| BlockAt(text, start, end) {
      BlockIsRange(text, start, end);
    }
  }
}
