/** Repository slugs: how a name becomes a slug, and the loop that probes for a free one. */
module Slugs {
  import opened Text

  const MAX_SLUG := 63

  predicate SlugChar(c: char)
  {
    'a' <= c <= 'z' || '0' <= c <= '9'
  }

  // ---- Alphanumeric runs joined by single hyphens ----

  predicate HyphenPair(s: string, i: nat)
  {
    i + 1 < |s| && s[i] == '-' && s[i + 1] == '-'
  }

  /** Alphanumeric characters and single hyphens. */
  predicate Hyphenated(s: string)
  {
    && (forall i :: 0 <= i < |s| ==> SlugChar(s[i]) || s[i] == '-')
    && (forall i :: 0 <= i < |s| ==> !HyphenPair(s, i))
  }

  /** Non-empty, and every hyphen stands between two alphanumeric characters. */
  predicate WellFormedSlug(s: string)
  {
    s != "" && Hyphenated(s) && s[0] != '-' && s[|s| - 1] != '-'
  }

  /** nonSlug.ReplaceAllString: every run of other characters becomes one hyphen. */
  function Hyphenate(s: string): (r: string)
    ensures Hyphenated(r)
  {
    if s == "" then ""
    else
      var before := Hyphenate(s[..|s| - 1]);
      var last := s[|s| - 1];
      if SlugChar(last) then
        HyphenatedSnoc(before, last);
        before + [last]
      else if before != "" && before[|before| - 1] == '-' then before
      else
        HyphenatedSnoc(before, '-');
        before + "-"
  }

  lemma HyphenatedSnoc(s: string, c: char)
    requires Hyphenated(s) && (SlugChar(c) || (c == '-' && (s == "" || s[|s| - 1] != '-')))
    ensures Hyphenated(s + [c])
  {
    forall i | 0 <= i < |s + [c]| ensures !HyphenPair(s + [c], i) {
      assert i < |s| ==> !HyphenPair(s, i);
    }
  }

  function TrimHyphensRight(s: string): (r: string)
    ensures r <= s
    ensures r != "" ==> r[|r| - 1] != '-'
    ensures r == "" ==> forall i :: 0 <= i < |s| ==> s[i] == '-'
  {
    if s != "" && s[|s| - 1] == '-' then TrimHyphensRight(s[..|s| - 1]) else s
  }

  function TrimHyphensLeft(s: string): (r: string)
    ensures |r| <= |s| && r == s[|s| - |r|..]
    ensures r != "" ==> r[0] != '-'
  {
    if s != "" && s[0] == '-' then TrimHyphensLeft(s[1..]) else s
  }

  /** repositorySlug. Lower-casing is that of Text.ToLower, which covers the letters a slug can keep: any
      other character becomes a hyphen, whatever its case. */
  function RepositorySlug(name: string): string
  {
    var trimmed := TrimHyphensRight(TrimHyphensLeft(Hyphenate(ToLower(name))));
    var value := if trimmed == "" then "repository" else trimmed;
    if |value| > MAX_SLUG then TrimHyphensRight(value[..MAX_SLUG]) else value
  }

  /** Whatever the name, its slug is well formed and at most 63 characters long. */
  lemma RepositorySlugIsWellFormed(name: string)
    ensures WellFormedSlug(RepositorySlug(name)) && |RepositorySlug(name)| <= MAX_SLUG
  {
    var whole := Hyphenate(ToLower(name));
    TrimmedIsWellFormed(whole);
    hide Hyphenate, TrimHyphensLeft, TrimHyphensRight, ToLower, WellFormedSlug;
    var trimmed := TrimHyphensRight(TrimHyphensLeft(whole));
    var value := if trimmed == "" then "repository" else trimmed;
    assert WellFormedSlug("repository") by { DefaultIsWellFormed(); }
    assert value != "" by { WellFormedIsThere(value); }
    if |value| > MAX_SLUG {
      CutIsWellFormed(value, MAX_SLUG);
    }
  }

  lemma DefaultIsWellFormed()
    ensures WellFormedSlug("repository") && |"repository"| <= MAX_SLUG
  {
  }

  lemma WellFormedIsThere(s: string)
    requires WellFormedSlug(s)
    ensures s != ""
  {
  }

  /** Trimming hyphenated text on both sides leaves nothing, or a well-formed slug. */
  lemma TrimmedIsWellFormed(whole: string)
    requires Hyphenated(whole)
    ensures var trimmed := TrimHyphensRight(TrimHyphensLeft(whole)); trimmed == "" || WellFormedSlug(trimmed)
  {
    hide TrimHyphensLeft, TrimHyphensRight, Hyphenated, WellFormedSlug;
    var left := TrimHyphensLeft(whole);
    var trimmed := TrimHyphensRight(left);
    if trimmed != "" {
      assert trimmed[0] == left[0];
      InfixIsWellFormed(whole, |whole| - |left|, trimmed);
    }
  }

  lemma InfixIsWellFormed(whole: string, k: nat, part: string)
    requires Hyphenated(whole)
    requires k <= |whole| && part <= whole[k..] && part != "" && part[0] != '-' && part[|part| - 1] != '-'
    ensures WellFormedSlug(part)
  {
    hide SlugChar;
    assert forall i :: 0 <= i < |part| ==> part[i] == whole[k..][i] == whole[k + i];
    forall i | 0 <= i < |part| ensures !HyphenPair(part, i) {
      assert !HyphenPair(whole, k + i);
    }
  }

  // ---- What a slug is made of ----

  /** The runs of alphanumeric characters, in order. */
  function Runs(s: string): (r: seq<string>)
    ensures forall run :: run in r ==> run != "" && forall i :: 0 <= i < |run| ==> SlugChar(run[i])
  {
    if s == "" then []
    else
      var before, last := Runs(s[..|s| - 1]), s[|s| - 1];
      if !SlugChar(last) then before
      else if before != [] && SlugChar(s[|s| - 2]) then before[..|before| - 1] + [before[|before| - 1] + [last]]
      else before + [[last]]
  }

  lemma {:induction false} JoinExtend(runs: seq<string>, c: char)
    requires runs != []
    ensures Join(runs[..|runs| - 1] + [runs[|runs| - 1] + [c]], '-') == Join(runs, '-') + [c]
  {
    var extended := runs[..|runs| - 1] + [runs[|runs| - 1] + [c]];
    if |runs| > 1 {
      JoinExtend(runs[1..], c);
      assert extended[1..] == runs[1..][..|runs[1..]| - 1] + [runs[1..][|runs[1..]| - 1] + [c]];
      assert Join(extended, '-') == runs[0] + ['-'] + (Join(runs[1..], '-') + [c]);
    }
  }

  lemma {:induction false} JoinAppend(runs: seq<string>, run: string)
    ensures Join(runs + [run], '-') == if runs == [] then run else Join(runs, '-') + ("-" + run)
  {
    if runs != [] {
      assert (runs + [run])[1..] == runs[1..] + [run];
      JoinAppend(runs[1..], run);
    }
  }

  /** One hyphen for other characters before the first run, and one for those behind the last. */
  function Lead(s: string): string
  {
    if s != "" && !SlugChar(s[0]) then "-" else ""
  }

  function Trail(s: string): string
  {
    if Runs(s) != [] && !SlugChar(s[|s| - 1]) then "-" else ""
  }

  lemma {:induction false} NoRuns(s: string)
    requires Runs(s) == []
    ensures forall i :: 0 <= i < |s| ==> !SlugChar(s[i])
  {
    if s != "" {
      NoRuns(s[..|s| - 1]);
      assert forall i :: 0 <= i < |s| - 1 ==> s[i] == s[..|s| - 1][i];
    }
  }

  lemma {:induction false} JoinEnds(runs: seq<string>)
    requires runs != [] && forall run :: run in runs ==> run != "" && forall i :: 0 <= i < |run| ==> SlugChar(run[i])
    ensures Join(runs, '-') != "" && SlugChar(Join(runs, '-')[|Join(runs, '-')| - 1])
  {
    if |runs| > 1 {
      JoinEnds(runs[1..]);
    }
  }

  /** Hyphenating joins the runs with single hyphens, with one more at each end that has other characters. */
  lemma {:induction false} HyphenateJoinsRuns(s: string)
    ensures Hyphenate(s) == Lead(s) + Join(Runs(s), '-') + Trail(s)
  {
    if s != "" {
      var t, c := s[..|s| - 1], s[|s| - 1];
      HyphenateJoinsRuns(t);
      if SlugChar(c) {
        MoreOfARun(t, c);
      } else {
        NoMoreOfARun(t, c);
      }
      assert s == t + [c];
    }
  }

  lemma RunsStep(t: string, c: char)
    ensures Runs(t) != [] ==> t != ""
    ensures Runs(t + [c]) ==
      if !SlugChar(c) then Runs(t)
      else if Runs(t) != [] && SlugChar(t[|t| - 1]) then Runs(t)[..|Runs(t)| - 1] + [Runs(t)[|Runs(t)| - 1] + [c]]
      else Runs(t) + [[c]]
  {
    assert (t + [c])[..|t + [c]| - 1] == t;
  }

  lemma LeadStep(t: string, c: char)
    ensures t != "" || SlugChar(c) ==> Lead(t + [c]) == Lead(t)
  {
    assert t != "" ==> (t + [c])[0] == t[0];
  }

  lemma MoreOfARun(t: string, c: char)
    requires SlugChar(c) && Hyphenate(t) == Lead(t) + Join(Runs(t), '-') + Trail(t)
    ensures Hyphenate(t + [c]) == Lead(t + [c]) + Join(Runs(t + [c]), '-') + Trail(t + [c])
  {
    var s, before, lead := t + [c], Runs(t), Lead(t);
    SlugCharStep(t, c);
    RunsStep(t, c);
    LeadStep(t, c);
    if before == [] {
      FirstRun(t, c);
    } else if SlugChar(t[|t| - 1]) {
      JoinExtend(before, c);
      assert Trail(t) == "";
      hide Hyphenate, Runs, Lead, Join, Trail, SlugChar;
      Reassociate(lead, Join(before, '-'), "", [c]);
    } else {
      JoinAppend(before, [c]);
      assert Trail(t) == "-";
      hide Hyphenate, Runs, Lead, Join, Trail, SlugChar;
      Reassociate(lead, Join(before, '-'), "-", [c]);
    }
  }

  lemma SlugCharStep(t: string, c: char)
    requires SlugChar(c)
    ensures Hyphenate(t + [c]) == Hyphenate(t) + [c] && Trail(t + [c]) == ""
  {
    assert (t + [c])[..|t + [c]| - 1] == t;
  }

  lemma FirstRun(t: string, c: char)
    requires SlugChar(c) && Runs(t) == []
    ensures Lead(t) + Join(Runs(t), '-') + Trail(t) + [c] == Lead(t) + Join([[c]], '-') + ""
  {
    assert Join([[c]], '-') == [c] && Join([], '-') == "" && Trail(t) == "";
  }

  lemma Reassociate(a: string, b: string, d: string, e: string)
    ensures a + b + d + e == a + (b + (d + e)) + ""
    ensures d == "" ==> a + b + d + e == a + (b + e) + ""
  {
  }

  lemma NonEmptyRuns(t: string)
    ensures t == "" ==> Runs(t) == []
  {
  }

  lemma NoMoreOfARun(t: string, c: char)
    requires !SlugChar(c) && Hyphenate(t) == Lead(t) + Join(Runs(t), '-') + Trail(t)
    ensures Hyphenate(t + [c]) == Lead(t + [c]) + Join(Runs(t + [c]), '-') + Trail(t + [c])
  {
    var s, before := t + [c], Runs(t);
    assert s[..|s| - 1] == t;
    var h := Hyphenate(t);
    assert Hyphenate(s) == if h != "" && h[|h| - 1] == '-' then h else h + "-";
    hide Hyphenate;
    assert Runs(s) == before;
    if before == [] {
      NoRuns(t);
      assert Join(before, '-') == "";
    } else {
      JoinEnds(before);
      NonEmptyRuns(t);
    }
    hide Runs, Join;
  }

  lemma {:induction false} JoinStartsWithRun(runs: seq<string>)
    requires runs != [] && runs[0] != ""
    ensures Join(runs, '-') != "" && Join(runs, '-')[0] == runs[0][0]
  {
  }

  /** A name's slug is its runs of letters and digits, in lower case and joined by single hyphens, or
      "repository" if it has none; beyond 63 characters it is cut there, and before a hyphen at the cut. */
  lemma RepositorySlugMeans(name: string)
    ensures var runs := Runs(ToLower(name));
      var whole := if runs == [] then "repository" else Join(runs, '-');
      RepositorySlug(name) ==
        if |whole| <= 63 then whole
        else if whole[62] == '-' then whole[..62]
        else whole[..63]
  {
    var lower := ToLower(name);
    var runs := Runs(lower);
    TrimmedHyphens(lower);
    JoinOfNone(runs);
    WholeIsWellFormed(lower);
    hide ToLower, Hyphenate, Runs, Join, TrimHyphensLeft, TrimHyphensRight;
    var whole := if runs == [] then "repository" else Join(runs, '-');
    assert RepositorySlug(name) == if |whole| > MAX_SLUG then TrimHyphensRight(whole[..MAX_SLUG]) else whole;
    if |whole| > 63 {
      CutAt63(whole);
    }
  }

  lemma JoinOfNone(runs: seq<string>)
    requires forall run :: run in runs ==> run != "" && forall i :: 0 <= i < |run| ==> SlugChar(run[i])
    ensures Join(runs, '-') == "" <==> runs == []
    ensures |"repository"| <= 63
  {
    if runs != [] {
      JoinEnds(runs);
    }
  }

  lemma TrimmedHyphens(s: string)
    ensures TrimHyphensRight(TrimHyphensLeft(Hyphenate(s))) == Join(Runs(s), '-')
  {
    HyphenateJoinsRuns(s);
    if Runs(s) == [] {
      assert Join(Runs(s), '-') == "" && Trail(s) == "";
      assert TrimHyphensLeft("-") == "" by { assert "-"[1..] == ""; }
    } else {
      JoinStartsWithRun(Runs(s));
      JoinEnds(Runs(s));
      hide Hyphenate, Runs, Join;
      TrimBoth(Lead(s), Join(Runs(s), '-'), Trail(s));
    }
  }

  lemma TrimBoth(lead: string, middle: string, trail: string)
    requires lead in {"", "-"} && trail in {"", "-"} && middle != "" && SlugChar(middle[0]) && SlugChar(middle[|middle| - 1])
    ensures TrimHyphensRight(TrimHyphensLeft(lead + middle + trail)) == middle
  {
    var rest := middle + trail;
    assert lead + middle + trail == lead + rest;
    assert rest[0] == middle[0];
    TrimLeftOnce(lead, rest);
    TrimRightOnce(middle, trail);
  }

  lemma TrimLeftOnce(lead: string, rest: string)
    requires lead in {"", "-"} && rest != "" && rest[0] != '-'
    ensures TrimHyphensLeft(lead + rest) == rest
  {
    if lead == "" {
      assert lead + rest == rest;
    } else {
      assert (lead + rest)[0] == '-' && (lead + rest)[1..] == rest;
    }
  }

  lemma TrimRightOnce(rest: string, trail: string)
    requires trail in {"", "-"} && rest != "" && rest[|rest| - 1] != '-'
    ensures TrimHyphensRight(rest + trail) == rest
  {
    if trail == "" {
      assert rest + trail == rest;
    } else {
      assert (rest + trail)[|rest|] == '-' && (rest + trail)[..|rest|] == rest;
    }
  }

  lemma WholeIsWellFormed(s: string)
    ensures Runs(s) != [] ==> WellFormedSlug(Join(Runs(s), '-'))
  {
    TrimmedHyphens(s);
    TrimmedIsWellFormed(Hyphenate(s));
    if Runs(s) != [] {
      JoinEnds(Runs(s));
    }
  }

  lemma CutAt63(whole: string)
    requires WellFormedSlug(whole) && |whole| > 63
    ensures TrimHyphensRight(whole[..63]) == if whole[62] == '-' then whole[..62] else whole[..63]
  {
    if whole[62] == '-' {
      assert !HyphenPair(whole, 61);
      assert whole[..63][..62] == whole[..62];
      assert TrimHyphensRight(whole[..62]) == whole[..62];
    }
  }

  /** Cutting a well-formed slug and dropping the hyphens at the cut leaves a well-formed slug. */
  lemma CutIsWellFormed(s: string, n: nat)
    requires WellFormedSlug(s) && 0 < n <= |s|
    ensures WellFormedSlug(TrimHyphensRight(s[..n])) && |TrimHyphensRight(s[..n])| <= n
  {
    var cut := TrimHyphensRight(s[..n]);
    assert s[..n][0] == s[0] != '-';
    assert cut <= s[0..] && cut != "";
    InfixIsWellFormed(s, 0, cut);
  }

  // ---- Suffixed candidates ----

  function SuffixText(suffix: nat): string
  {
    "-" + Decimal(suffix)
  }

  function Min(a: int, b: int): int
  {
    if a < b then a else b
  }

  /** The candidate for one suffix: the base cut to leave room, without hyphens at the cut. A suffix
      text longer than 63 characters would need more rows than a 64-bit counter can number. */
  function Candidate(base: string, suffix: nat): string
  {
    var text := SuffixText(suffix);
    var room := if |text| <= MAX_SLUG then MAX_SLUG - |text| else 0;
    TrimHyphensRight(base[..Min(|base|, room)]) + text
  }

  /** Suffixed candidates are pairwise distinct: what follows the last hyphen is the suffix. */
  lemma CandidatesAreDistinct(base: string, m: nat, n: nat)
    requires Candidate(base, m) == Candidate(base, n)
    ensures m == n
  {
    var a, b := Decimal(m), Decimal(n);
    DecimalIsDigits(m);
    DecimalIsDigits(n);
    var x, y := Candidate(base, m), Candidate(base, n);
    assert x[|x| - |a| - 1] == '-' && x[|x| - |a|..] == a;
    assert y[|y| - |b| - 1] == '-' && y[|y| - |b|..] == b;
    DecimalIsInjective(m, n);
  }

  /** A suffixed candidate of a well-formed base is well formed and short enough, as long as its
      suffix has at most 61 digits. */
  lemma CandidateIsWellFormed(base: string, suffix: nat)
    requires WellFormedSlug(base) && |Decimal(suffix)| <= 61
    ensures WellFormedSlug(Candidate(base, suffix)) && |Candidate(base, suffix)| <= MAX_SLUG
  {
    var text, digits := SuffixText(suffix), Decimal(suffix);
    var n := Min(|base|, MAX_SLUG - |text|);
    DecimalIsDigits(suffix);
    CutIsWellFormed(base, n);
    hide WellFormedSlug, Decimal, TrimHyphensRight;
    var cut := TrimHyphensRight(base[..n]);
    assert Candidate(base, suffix) == cut + ("-" + digits);
    SuffixedIsWellFormed(cut, digits);
  }

  lemma SuffixedIsWellFormed(cut: string, digits: string)
    requires WellFormedSlug(cut) && digits != "" && forall i :: 0 <= i < |digits| ==> IsDigit(digits[i])
    ensures WellFormedSlug(cut + ("-" + digits))
  {
    var c := cut + ("-" + digits);
    assert c[|cut|] == '-';
    assert forall i :: 0 <= i < |cut| ==> c[i] == cut[i];
    assert forall i :: |cut| < i < |c| ==> c[i] == digits[i - |cut| - 1];
    forall i | 0 <= i < |c| ensures !HyphenPair(c, i) {
      assert i < |cut| ==> !HyphenPair(cut, i);
    }
  }

  /** A candidate is the base with "-n" behind it, as far as both fit; what does not fit is cut off the
      base, with a hyphen at the cut. */
  lemma CandidateMeans(base: string, n: nat)
    requires WellFormedSlug(base) && |base| <= 63 && |Decimal(n)| <= 61
    ensures var room := 62 - |Decimal(n)|;
      Candidate(base, n) ==
        (if |base| <= room then base else if base[room - 1] == '-' then base[..room - 1] else base[..room]) + ("-" + Decimal(n))
  {
    var room := 62 - |Decimal(n)|;
    var k := Min(|base|, room);
    hide Decimal, WellFormedSlug;
    assert Candidate(base, n) == TrimHyphensRight(base[..k]) + ("-" + Decimal(n));
    LastIsNoHyphen(base);
    if |base| <= room {
      assert base[..k] == base;
    } else if base[room - 1] == '-' {
      HyphenInside(base, room - 1);
      assert base[..room][..room - 1] == base[..room - 1];
      assert TrimHyphensRight(base[..room - 1]) == base[..room - 1];
    }
  }

  lemma LastIsNoHyphen(s: string)
    requires WellFormedSlug(s)
    ensures s[|s| - 1] != '-' && TrimHyphensRight(s) == s
  {
  }

  lemma HyphenInside(s: string, i: nat)
    requires WellFormedSlug(s) && i < |s| && s[i] == '-'
    ensures i > 0 && s[i - 1] != '-'
  {
    assert i > 0 ==> !HyphenPair(s, i - 1);
  }

  // ---- The probing loop ----

  /** The taken slugs that are candidates for this suffix or a later one. */
  ghost function Ahead(base: string, taken: set<string>, suffix: nat): set<string>
  {
    set s | s in taken && IsLater(base, suffix, s)
  }

  ghost predicate IsLater(base: string, suffix: nat, s: string)
  {
    exists n: nat :: n >= suffix && Candidate(base, n) == s
  }

  /** One more failed probe leaves one candidate fewer to fail on. */
  lemma ProbeShrinks(base: string, taken: set<string>, suffix: nat)
    requires Candidate(base, suffix) in taken
    ensures Candidate(base, suffix) in Ahead(base, taken, suffix)
    ensures Ahead(base, taken, suffix + 1) == Ahead(base, taken, suffix) - {Candidate(base, suffix)}
    ensures |Ahead(base, taken, suffix + 1)| == |Ahead(base, taken, suffix)| - 1
  {
    var c := Candidate(base, suffix);
    assert IsLater(base, suffix, c);
    forall s ensures s in Ahead(base, taken, suffix + 1) <==> s in Ahead(base, taken, suffix) - {c} {
      if s in Ahead(base, taken, suffix + 1) {
        var n: nat :| n >= suffix + 1 && Candidate(base, n) == s;
        assert IsLater(base, suffix, s);
        if s == c {
          CandidatesAreDistinct(base, n, suffix);
        }
      }
      if s in Ahead(base, taken, suffix) && s != c {
        var n: nat :| n >= suffix && Candidate(base, n) == s;
        assert n >= suffix + 1;
        assert IsLater(base, suffix + 1, s);
      }
    }
  }

  /** The first suffix from the given one on whose candidate is free. */
  function FirstFree(base: string, taken: set<string>, suffix: nat): (n: nat)
    ensures n >= suffix
    ensures Candidate(base, n) !in taken
    ensures forall m: nat :: suffix <= m < n ==> Candidate(base, m) in taken
    ensures n - suffix <= |Ahead(base, taken, suffix)|
    decreases |Ahead(base, taken, suffix)|
  {
    if Candidate(base, suffix) !in taken then suffix
    else
      ProbeShrinks(base, taken, suffix);
      FirstFree(base, taken, suffix + 1)
  }

  function FreshSlug(name: string, taken: set<string>): string
  {
    var base := RepositorySlug(name);
    if base !in taken then base else Candidate(base, FirstFree(base, taken, 2))
  }

  /** With n slugs taken, n below 10^60, the probing loop stops within n + 1 suffixed candidates; the
      slug it settles on is free, at most 63 characters long and well formed. */
  lemma SlugAllocation(name: string, taken: set<string>)
    ensures FreshSlug(name, taken) !in taken
    ensures FirstFree(RepositorySlug(name), taken, 2) - 2 <= |taken|
    ensures |taken| < Pow10(60) ==> WellFormedSlug(FreshSlug(name, taken)) && |FreshSlug(name, taken)| <= MAX_SLUG
  {
    var base := RepositorySlug(name);
    RepositorySlugIsWellFormed(name);
    var ahead := Ahead(base, taken, 2);
    SubsetSize(ahead, taken);
    if base in taken && |taken| < Pow10(60) {
      var n := FirstFree(base, taken, 2);
      assert Pow10(61) == 10 * Pow10(60);
      Pow10Positive(60);
      DecimalLength(n, 61);
      CandidateIsWellFormed(base, n);
    }
  }

  /** The slug that is settled on: the base if it is free, else its first free candidate from 2 on. */
  lemma FreshSlugMeans(name: string, taken: set<string>)
    ensures var base, slug := RepositorySlug(name), FreshSlug(name, taken);
      if base !in taken then slug == base
      else exists n: nat :: n >= 2 && slug == Candidate(base, n) && slug !in taken && forall m: nat :: 2 <= m < n ==> Candidate(base, m) in taken
  {
    var n := FirstFree(RepositorySlug(name), taken, 2);
    assert n >= 2;
  }

  lemma SubsetSize<T>(a: set<T>, b: set<T>)
    requires a <= b
    ensures |a| <= |b|
  {
    assert b == a + (b - a);
  }

  // ---- All probes, the base included ----

  /** How many slugs the loop looks up. */
  function Probes(base: string, taken: set<string>): nat
  {
    if base !in taken then 1 else FirstFree(base, taken, 2)
  }

  /** The base is one of the candidates that come after it. */
  ghost predicate OwnCandidate(base: string)
  {
    IsLater(base, 2, base)
  }

  /** The first k - 1 suffixed candidates. */
  function CandidatesUpTo(base: string, k: nat): set<string>
  {
    if k < 2 then {} else CandidatesUpTo(base, k - 1) + {Candidate(base, k)}
  }

  ghost predicate Among(base: string, k: nat, s: string)
  {
    exists j: nat :: 2 <= j <= k && Candidate(base, j) == s
  }

  lemma {:induction false} CandidatesUpToHold(base: string, k: nat)
    ensures |CandidatesUpTo(base, k)| == if k < 2 then 0 else k - 1
    ensures forall s :: s in CandidatesUpTo(base, k) <==> Among(base, k, s)
  {
    hide Candidate;
    if k >= 2 {
      CandidatesUpToHold(base, k - 1);
      if Among(base, k - 1, Candidate(base, k)) {
        var j: nat :| 2 <= j <= k - 1 && Candidate(base, j) == Candidate(base, k);
        CandidatesAreDistinct(base, j, k);
      }
      forall s ensures Among(base, k, s) <==> Among(base, k - 1, s) || s == Candidate(base, k) {
        if Among(base, k - 1, s) {
          var j: nat :| 2 <= j <= k - 1 && Candidate(base, j) == s;
          assert 2 <= j <= k;
        }
      }
    }
  }

  /** With exactly the first k - 1 candidates taken, the base being the last of them, the loop looks up k + 1 slugs. */
  lemma OneProbeTooMany(base: string, k: nat)
    requires k >= 2 && Candidate(base, k) == base
    ensures |CandidatesUpTo(base, k)| == k - 1 && Probes(base, CandidatesUpTo(base, k)) == k + 1
  {
    var taken := CandidatesUpTo(base, k);
    CandidatesUpToHold(base, k);
    assert Among(base, k, base);
    forall j: nat | 2 <= j <= k ensures Candidate(base, j) in taken {
      assert Among(base, k, Candidate(base, j));
    }
    if Candidate(base, k + 1) in taken {
      var j: nat :| 2 <= j <= k && Candidate(base, j) == Candidate(base, k + 1);
      CandidatesAreDistinct(base, j, k + 1);
    }
    FirstFreeIsUnique(base, taken, k + 1);
  }

  /** Whatever is taken, one probe more than slugs taken is enough in all, if and only if the base is none
      of its own suffixed candidates. */
  lemma ProbesStayWithinBound(base: string)
    ensures (forall taken :: Probes(base, taken) <= |taken| + 1) <==> !OwnCandidate(base)
  {
    if OwnCandidate(base) {
      var k: nat :| k >= 2 && Candidate(base, k) == base;
      OneProbeTooMany(base, k);
      assert Probes(base, CandidatesUpTo(base, k)) > |CandidatesUpTo(base, k)| + 1;
    } else {
      forall taken ensures Probes(base, taken) <= |taken| + 1 {
        if base in taken {
          SubsetSize(Ahead(base, taken, 2), taken - {base});
        }
      }
    }
  }

  /** A slug is its own candidate exactly when it is at most one character short of the limit and ends
      like a suffixed one: there is no room to add a suffix, and cutting it gives the slug back. */
  lemma OwnCandidateByForm(base: string)
    requires WellFormedSlug(base) && |base| <= MAX_SLUG
    ensures OwnCandidate(base) <==> |base| >= MAX_SLUG - 1 && exists k: nat :: k >= 2 && EndsWith(base, k)
  {
    if OwnCandidate(base) {
      var k: nat :| k >= 2 && Candidate(base, k) == base;
      OwnSuffix(base, k);
      assert EndsWith(base, k);
    }
    if |base| >= MAX_SLUG - 1 && exists k: nat :: k >= 2 && EndsWith(base, k) {
      var k: nat :| k >= 2 && EndsWith(base, k);
      CutGivesItBack(base, k);
    }
  }

  /** The slug ends with a hyphen and the digits of k. */
  predicate EndsWith(base: string, k: nat)
  {
    |SuffixText(k)| < |base| && base[|base| - |SuffixText(k)|..] == SuffixText(k)
  }

  lemma OwnSuffix(base: string, k: nat)
    requires WellFormedSlug(base) && |base| <= MAX_SLUG && Candidate(base, k) == base
    ensures |base| >= MAX_SLUG - 1 && EndsWith(base, k)
  {
    var text := SuffixText(k);
    DecimalIsDigits(k);
    var room := if |text| <= MAX_SLUG then MAX_SLUG - |text| else 0;
    var n := Min(|base|, room);
    var cut := TrimHyphensRight(base[..n]);
    assert base == cut + text;
    assert base[0] != '-' && text[0] == '-';
    assert cut != "";
    assert base[|cut|] == '-';
    TrimsOneHyphen(base, n);
  }

  /** Cutting a slug loses one hyphen at most. */
  lemma TrimsOneHyphen(base: string, n: nat)
    requires WellFormedSlug(base) && n <= |base|
    ensures |TrimHyphensRight(base[..n])| + 1 >= n
  {
    if n > 0 && base[n - 1] == '-' {
      assert base[..n][..n - 1] == base[..n - 1];
      assert n >= 2 && !HyphenPair(base, n - 2);
    }
  }

  lemma CutGivesItBack(base: string, k: nat)
    requires WellFormedSlug(base) && MAX_SLUG - 1 <= |base| <= MAX_SLUG && k >= 2 && EndsWith(base, k)
    ensures OwnCandidate(base)
  {
    var text := SuffixText(k);
    var stem, n := |base| - |text|, MAX_SLUG - |text|;
    assert base[stem] == base[stem..][0] == '-';
    assert stem > 0 && !HyphenPair(base, stem - 1);
    assert base[..stem + 1][..stem] == base[..stem];
    assert TrimHyphensRight(base[..stem]) == base[..stem];
    assert TrimHyphensRight(base[..stem + 1]) == base[..stem];
    assert n == stem || n == stem + 1;
    assert Candidate(base, k) == base[..stem] + text == base;
  }

  /** Such slugs exist: any 61 alphanumeric characters with "-2" behind them, and one slug taken makes the
      loop look up three. */
  lemma BaseCanBeItsOwnCandidate(stem: string)
    requires |stem| == 61 && forall i :: 0 <= i < |stem| ==> SlugChar(stem[i])
    ensures WellFormedSlug(stem + "-2") && OwnCandidate(stem + "-2")
    ensures Probes(stem + "-2", {stem + "-2"}) == 3
  {
    var base := stem + "-2";
    assert base[..61] == stem;
    TwoIsItsDigit();
    StemIsWhole(stem);
    assert Candidate(base, 2) == base by { hide TrimHyphensRight, SuffixText; }
    OneCandidate(base);
    SuffixedStem(stem);
    hide *;
    OwnSecond(base);
    OneProbeTooMany(base, 2);
  }

  lemma TwoIsItsDigit()
    ensures SuffixText(2) == "-2"
  {
    assert Decimal(2) == "2";
  }

  lemma StemIsWhole(stem: string)
    requires stem != "" && SlugChar(stem[|stem| - 1])
    ensures TrimHyphensRight(stem) == stem
  {
  }

  lemma SuffixedStem(stem: string)
    requires stem != "" && forall i :: 0 <= i < |stem| ==> SlugChar(stem[i])
    ensures WellFormedSlug(stem + "-2")
  {
    var base := stem + "-2";
    assert base[|stem|] == '-' && base[|stem| + 1] == '2';
    assert forall i :: 0 <= i < |stem| ==> base[i] == stem[i];
  }

  lemma OwnSecond(base: string)
    requires Candidate(base, 2) == base
    ensures OwnCandidate(base)
  {
    hide Candidate;
  }

  lemma OneCandidate(base: string)
    ensures CandidatesUpTo(base, 2) == {Candidate(base, 2)}
  {
    hide Candidate;
    assert CandidatesUpTo(base, 1) == {};
  }

  /** The loop of Attach, counting its probes. */
  method Allocate(name: string, taken: set<string>) returns (slug: string, ghost probes: nat)
    ensures slug == FreshSlug(name, taken)
    ensures probes == Probes(RepositorySlug(name), taken)
  {
    hide RepositorySlug, Candidate;
    slug := RepositorySlug(name);
    probes := 1;
    var baseSlug := slug;
    var suffix: nat := 2;
    while slug in taken
      invariant suffix >= 2 && probes == suffix - 1
      invariant suffix == 2 ==> slug == baseSlug
      invariant suffix > 2 ==> slug == Candidate(baseSlug, suffix - 1) && baseSlug in taken
      invariant forall m: nat :: 2 <= m < suffix - 1 ==> Candidate(baseSlug, m) in taken
      decreases if suffix == 2 then 1 else 0, if suffix == 2 then 0 else |Ahead(baseSlug, taken, suffix - 1)|
    {
      if suffix > 2 {
        ProbeShrinks(baseSlug, taken, suffix - 1);
      }
      slug := Candidate(baseSlug, suffix);
      suffix := suffix + 1;
      probes := probes + 1;
    }
    if suffix > 2 {
      FirstFreeIsUnique(baseSlug, taken, suffix - 1);
    }
  }

  lemma FirstFreeIsUnique(base: string, taken: set<string>, n: nat)
    requires n >= 2 && Candidate(base, n) !in taken
    requires forall m: nat :: 2 <= m < n ==> Candidate(base, m) in taken
    ensures FirstFree(base, taken, 2) == n
  {
  }
}
