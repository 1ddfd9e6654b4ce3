/** The scope algebra: what a reservation denotes, how a request is normalised, and why the
    string tests of scopesOverlap decide intersection of path sets. */
module Scopes {
  import opened Wrappers
  import opened Text

  datatype ScopeKind = RepositoryKind | PathKind | FileKind

  datatype ClaimMode = Exclusive | Shared

  /** A scope as a client sends it. */
  datatype ScopeInput = ScopeInput(kind: string, locator: string, mode: string)

  /** A scope after normalizeScopes, its kind and mode no longer free text. */
  datatype Scope = Scope(kind: ScopeKind, locator: string, mode: ClaimMode)

  const MAX_SCOPES := 50
  const MAX_LOCATOR := 4096

  datatype ScopeError =
    | WrongCount
    | UnknownKind
    | UnknownMode
    | NotRelative
    | OutsideRepository
    | LocatorTooLong

  // ---- Denotation ----

  /** A repository path: a non-empty list of ordinary component names. */
  ghost predicate ValidPath(p: seq<string>)
  {
    p != [] && forall part :: part in p ==> Ordinary(part)
  }

  /** The set of repository paths a scope reserves. */
  ghost predicate Covers(scope: Scope, p: seq<string>)
  {
    && ValidPath(p)
    && match scope.kind
       case RepositoryKind => true
       case PathKind => scope.locator == "." || Split(scope.locator, '/') <= p
       case FileKind => Split(scope.locator, '/') == p
  }

  ghost predicate Intersect(a: Scope, b: Scope)
  {
    exists p :: Covers(a, p) && Covers(b, p)
  }

  predicate NormalLocator(locator: string)
  {
    forall part :: part in Split(locator, '/') ==> Ordinary(part)
  }

  predicate NormalScope(scope: Scope)
  {
    && '\0' !in scope.locator
    && '\\' !in scope.locator
    && Utf8Length(scope.locator) <= MAX_LOCATOR
    && if scope.kind.RepositoryKind? then scope.locator == "." else NormalLocator(scope.locator)
  }

  // ---- The string tests ----

  predicate PathContains(parent: string, child: string)
  {
    parent == "." || child == parent || parent + "/" <= child
  }

  predicate ScopesOverlap(left: Scope, right: Scope)
  {
    if left.kind.RepositoryKind? || right.kind.RepositoryKind? then true
    else if left.kind.FileKind? && right.kind.FileKind? then left.locator == right.locator
    else if left.kind.PathKind? && right.kind.PathKind? then
      PathContains(left.locator, right.locator) || PathContains(right.locator, left.locator)
    else if left.kind.PathKind? then PathContains(left.locator, right.locator)
    else PathContains(right.locator, left.locator)
  }

  predicate Blocking(left: Scope, right: Scope)
  {
    left.mode.Exclusive? || right.mode.Exclusive?
  }

  datatype OverlapReason = RepositoryScope | ExactScope | PathHierarchy

  function ReasonFor(left: Scope, right: Scope): OverlapReason
  {
    if left.kind.RepositoryKind? || right.kind.RepositoryKind? then RepositoryScope
    else if left.locator == right.locator then ExactScope
    else PathHierarchy
  }

  /** String prefix plus "/" is component-list prefix, for any two strings. */
  lemma PrefixIsComponentPrefix(parent: string, child: string)
    ensures (child == parent || parent + "/" <= child) <==> Split(parent, '/') <= Split(child, '/')
  {
    hide Split, Join;
    var p, c := Split(parent, '/'), Split(child, '/');
    JoinSplit(parent, '/');
    JoinSplit(child, '/');
    if parent + "/" <= child {
      var rest := child[|parent| + 1..];
      assert child == parent + ['/'] + rest;
      SplitConcat(parent, rest, '/');
    }
    if p <= c && |p| < |c| {
      assert c == p + c[|p|..];
      JoinConcat(p, c[|p|..], '/');
      assert child == (parent + "/") + Join(c[|p|..], '/');
    } else if p <= c {
      assert p == c;
    }
  }

  /** On normal locators the containment test is component-list prefix. */
  lemma PathContainsIsPrefix(parent: string, child: string)
    requires NormalLocator(parent)
    ensures PathContains(parent, child) <==> Split(parent, '/') <= Split(child, '/')
  {
    PrefixIsComponentPrefix(parent, child);
    OrdinaryLocatorStaysInside(parent);
  }

  lemma SplitIsInjective(a: string, b: string, sep: char)
    ensures a == b <==> Split(a, sep) == Split(b, sep)
  {
    JoinSplit(a, sep);
    JoinSplit(b, sep);
  }

  /** The overlap test in terms of component lists only. */
  lemma OverlapOnComponents(a: Scope, b: Scope)
    requires NormalScope(a) && NormalScope(b)
    ensures ScopesOverlap(a, b) <==>
      || a.kind.RepositoryKind?
      || b.kind.RepositoryKind?
      || (a.kind.PathKind? && Split(a.locator, '/') <= Split(b.locator, '/'))
      || (b.kind.PathKind? && Split(b.locator, '/') <= Split(a.locator, '/'))
      || Split(a.locator, '/') == Split(b.locator, '/')
  {
    if !a.kind.RepositoryKind? && !b.kind.RepositoryKind? {
      PathContainsIsPrefix(a.locator, b.locator);
      PathContainsIsPrefix(b.locator, a.locator);
      SplitIsInjective(a.locator, b.locator, '/');
    }
  }

  /** The overlap test is exact on normalised scopes: it holds if and only if some repository
      path lies in both reservations. */
  lemma OverlapIsIntersection(a: Scope, b: Scope)
    requires NormalScope(a) && NormalScope(b)
    ensures ScopesOverlap(a, b) <==> Intersect(a, b)
  {
    OverlapOnComponents(a, b);
    var l, r := Split(a.locator, '/'), Split(b.locator, '/');
    if !a.kind.RepositoryKind? { OrdinaryLocatorStaysInside(a.locator); }
    if !b.kind.RepositoryKind? { OrdinaryLocatorStaysInside(b.locator); }
    if ScopesOverlap(a, b) {
      var p :=
        if a.kind.RepositoryKind? && b.kind.RepositoryKind? then ["a"]
        else if a.kind.RepositoryKind? then r
        else if b.kind.RepositoryKind? then l
        else if |l| >= |r| then l else r;
      assert Ordinary("a");
      assert Covers(a, p) && Covers(b, p);
    }
    if !a.kind.RepositoryKind? && !b.kind.RepositoryKind? && Intersect(a, b) {
      var p :| Covers(a, p) && Covers(b, p);
      if |l| <= |r| { PrefixesAreNested(l, r, p); } else { PrefixesAreNested(r, l, p); }
    }
  }

  lemma PrefixesAreNested<T>(l: seq<T>, r: seq<T>, p: seq<T>)
    requires l <= p && r <= p && |l| <= |r|
    ensures l <= r
  {
    assert forall i :: 0 <= i < |l| ==> l[i] == p[i] == r[i];
  }

  /** Consequences a caller relies on: a scope conflicts with itself, the order of two scopes does
      not matter, and widening a reservation never loses a conflict. */
  lemma OverlapIsReflexiveSymmetricMonotone(a: Scope, b: Scope, wider: Scope)
    requires NormalScope(a) && NormalScope(b) && NormalScope(wider)
    requires forall p :: Covers(a, p) ==> Covers(wider, p)
    ensures ScopesOverlap(a, a)
    ensures ScopesOverlap(a, b) <==> ScopesOverlap(b, a)
    ensures ScopesOverlap(a, b) ==> ScopesOverlap(wider, b)
  {
    OverlapOnComponents(a, a);
    OverlapOnComponents(a, b);
    OverlapOnComponents(b, a);
    OverlapIsIntersection(a, b);
    OverlapIsIntersection(wider, b);
    if Intersect(a, b) {
      var q :| Covers(a, q) && Covers(b, q);
      assert Covers(wider, q) && Covers(b, q);
    }
  }

  // ---- Normalisation ----

  function ParseKind(text: string): Option<ScopeKind>
  {
    if text == "repository" then Some(RepositoryKind)
    else if text == "path" then Some(PathKind)
    else if text == "file" then Some(FileKind)
    else None
  }

  function KindName(kind: ScopeKind): string
  {
    match kind case RepositoryKind => "repository" case PathKind => "path" case FileKind => "file"
  }

  function ParseMode(text: string): Option<ClaimMode>
  {
    if text == "" || text == "exclusive" then Some(Exclusive)
    else if text == "shared" then Some(Shared)
    else None
  }

  function ModeName(mode: ClaimMode): string
  {
    match mode case Exclusive => "exclusive" case Shared => "shared"
  }

  /** A normalised scope in the form in which clients send scopes. */
  function Render(scope: Scope): ScopeInput
  {
    ScopeInput(KindName(scope.kind), scope.locator, ModeName(scope.mode))
  }

  function NormalizeLocator(raw: string): Result<string, ScopeError>
  {
    var slashed := ReplaceChar(TrimSpace(raw), '\\', '/');
    if slashed == "" || slashed[0] == '/' then Err(NotRelative)
    else
      var cleaned := Clean(slashed);
      if cleaned == "." || cleaned == ".." || "../" <= cleaned || '\0' in cleaned then Err(OutsideRepository)
      else Ok(cleaned)
  }

  function NormalizeOne(scope: ScopeInput): Result<Scope, ScopeError>
  {
    var kind := ParseKind(ToLower(TrimSpace(scope.kind)));
    var mode := ParseMode(ToLower(TrimSpace(scope.mode)));
    if kind.None? then Err(UnknownKind)
    else if mode.None? then Err(UnknownMode)
    else
      var located := if kind.value.RepositoryKind? then Ok(".") else NormalizeLocator(scope.locator);
      if located.Err? then Err(located.error)
      else if Utf8Length(located.value) > MAX_LOCATOR then Err(LocatorTooLong)
      else Ok(Scope(kind.value, located.value, mode.value))
  }

  function NormalizeScopes(scopes: seq<ScopeInput>): Result<seq<Scope>, ScopeError>
  {
    if |scopes| == 0 || |scopes| > MAX_SCOPES then Err(WrongCount)
    else
      var each := Traverse(NormalizeOne, scopes);
      if each.Err? then each else Ok(Distinct(each.value))
  }

  /** The string under which normalizeScopes remembers a scope it has seen. */
  function SeenKey(scope: Scope): string
  {
    KindName(scope.kind) + ['\0'] + (scope.locator + ['\0'] + ModeName(scope.mode))
  }

  lemma SplitThree(a: string, b: string, c: string, sep: char)
    requires sep !in a && sep !in b && sep !in c
    ensures Split(a + [sep] + (b + [sep] + c), sep) == [a, b, c]
  {
    SplitWhole(a, sep);
    SplitWhole(b, sep);
    SplitWhole(c, sep);
    SplitConcat(a, b + [sep] + c, sep);
    SplitConcat(b, c, sep);
  }

  lemma SeenKeyIsInjective(a: Scope, b: Scope)
    requires '\0' !in a.locator && '\0' !in b.locator && SeenKey(a) == SeenKey(b)
    ensures a == b
  {
    SplitThree(KindName(a.kind), a.locator, ModeName(a.mode), '\0');
    SplitThree(KindName(b.kind), b.locator, ModeName(b.mode), '\0');
    assert [KindName(a.kind), a.locator, ModeName(a.mode)] == [KindName(b.kind), b.locator, ModeName(b.mode)];
    assert KindName(a.kind) == KindName(b.kind) && |"path"| != |"repository"| && "path"[0] != "file"[0];
    assert ModeName(a.mode) == ModeName(b.mode) && |"exclusive"| != |"shared"|;
  }

  /** A cleaned relative path that does not climb out of the repository has ordinary components only. */
  lemma CleanedLocatorIsNormal(raw: string)
    requires NormalizeLocator(raw).Ok?
    ensures NormalLocator(NormalizeLocator(raw).value)
    ensures '\\' !in NormalizeLocator(raw).value
  {
    var slashed := ReplaceChar(TrimSpace(raw), '\\', '/');
    var parts := Split(slashed, '/');
    var kept := CleanParts([], parts);
    SplitParts(slashed, '/');
    CleanPartsReduced([], parts);
    if kept[0] == ".." {
      ClimbingJoin(kept);
      assert false;
    }
    assert forall i :: 0 <= i < |kept| ==> Ordinary(kept[i]);
    SplitJoin(kept, '/');
    forall part | part in parts ensures '\\' !in part {
      SplitKeepsChars(slashed, '/', part);
    }
    CleanPartsKeepsChars([], parts, '\\');
    JoinKeepsChars(kept, '/', '\\');
  }

  lemma ClimbingJoin(kept: seq<string>)
    requires kept != [] && kept[0] == ".."
    ensures Join(kept, '/') == ".." || "../" <= Join(kept, '/')
  {
    if |kept| > 1 {
      assert Join(kept, '/') == ".." + ['/'] + Join(kept[1..], '/');
    }
  }

  lemma {:induction false} SplitKeepsChars(s: string, sep: char, part: string)
    requires part in Split(s, sep)
    ensures forall c :: c in part ==> c in s
  {
    if s != "" {
      var rest := Split(s[1..], sep);
      if part in rest {
        SplitKeepsChars(s[1..], sep, part);
      } else if s[0] != sep {
        assert part == [s[0]] + rest[0];
        SplitKeepsChars(s[1..], sep, rest[0]);
      }
    }
  }

  lemma {:induction false} CleanPartsKeepsChars(kept: seq<string>, parts: seq<string>, c: char)
    requires forall part :: part in kept ==> c !in part
    requires forall part :: part in parts ==> c !in part
    ensures forall part :: part in CleanParts(kept, parts) ==> c !in part
    decreases |parts|
  {
    if parts != [] {
      CleanPartsKeepsChars(CleanPush(kept, parts[0]), parts[1..], c);
    }
  }

  lemma {:induction false} JoinKeepsChars(parts: seq<string>, sep: char, c: char)
    requires c != sep && forall part :: part in parts ==> c !in part
    ensures c !in Join(parts, sep)
  {
    if |parts| > 1 {
      JoinKeepsChars(parts[1..], sep, c);
    }
  }

  lemma NormalizeOneIsNormal(scope: ScopeInput)
    requires NormalizeOne(scope).Ok?
    ensures NormalScope(NormalizeOne(scope).value)
    ensures '\0' !in NormalizeOne(scope).value.locator
  {
    if !NormalizeOne(scope).value.kind.RepositoryKind? {
      CleanedLocatorIsNormal(scope.locator);
    }
  }

  /** Every accepted request is non-empty, free of duplicates, and made of normal scopes that
      are exactly the normal forms of the scopes asked for. */
  lemma NormalForm(scopes: seq<ScopeInput>)
    requires NormalizeScopes(scopes).Ok?
    ensures var result := NormalizeScopes(scopes).value;
      && 0 < |result| <= |scopes|
      && (forall i, j :: 0 <= i < j < |result| ==> result[i] != result[j])
      && (forall s :: s in result ==> NormalScope(s))
      && (forall i :: 0 <= i < |scopes| ==> NormalizeOne(scopes[i]).Ok? && NormalizeOne(scopes[i]).value in result)
      && (forall s :: s in result ==> exists i :: 0 <= i < |scopes| && NormalizeOne(scopes[i]) == Ok(s))
  {
    hide NormalizeOne, NormalScope;
    var each := Traverse(NormalizeOne, scopes).value;
    var result := NormalizeScopes(scopes).value;
    assert each[0] in result;
    forall s | s in result
      ensures NormalScope(s) && exists i :: 0 <= i < |scopes| && NormalizeOne(scopes[i]) == Ok(s)
    {
      var i :| 0 <= i < |each| && each[i] == s;
      NormalizeOneIsNormal(scopes[i]);
    }
  }

  /** First occurrences keep their order: of two accepted scopes, the one asked for first comes first. */
  lemma NormalFormOrder(scopes: seq<ScopeInput>, i: nat, j: nat)
    requires NormalizeScopes(scopes).Ok? && i < j < |scopes|
    requires forall h :: 0 <= h < i ==> NormalizeOne(scopes[h]) != NormalizeOne(scopes[i])
    requires forall h :: 0 <= h < j ==> NormalizeOne(scopes[h]) != NormalizeOne(scopes[j])
    ensures exists k, l ::
      && 0 <= k < l < |NormalizeScopes(scopes).value|
      && Ok(NormalizeScopes(scopes).value[k]) == NormalizeOne(scopes[i])
      && Ok(NormalizeScopes(scopes).value[l]) == NormalizeOne(scopes[j])
  {
    hide NormalizeOne;
    var each := Traverse(NormalizeOne, scopes).value;
    var k, l := DistinctKeepsOrder(each, i, j);
  }

  lemma PlainWordIsFixedPoint(word: string)
    requires word != "" && forall i :: 0 <= i < |word| ==> 'a' <= word[i] <= 'z'
    ensures ToLower(TrimSpace(word)) == word
  {
    assert TrimLeft(word) == word;
    assert TrimRight(word) == word;
  }

  lemma NamesAreFixedPoints(scope: Scope)
    ensures ParseKind(ToLower(TrimSpace(KindName(scope.kind)))) == Some(scope.kind)
    ensures ParseMode(ToLower(TrimSpace(ModeName(scope.mode)))) == Some(scope.mode)
  {
    hide ToLower, TrimSpace;
    PlainWordIsFixedPoint(KindName(scope.kind));
    PlainWordIsFixedPoint(ModeName(scope.mode));
    assert |"path"| != |"repository"| && "path"[0] != "file"[0];
    assert |"exclusive"| != |"shared"|;
  }

  lemma OrdinaryLocatorStaysInside(locator: string)
    requires NormalLocator(locator)
    ensures locator != "" && locator != "." && locator != ".." && locator[0] != '/' && !("../" <= locator)
  {
    var parts := Split(locator, '/');
    JoinSplit(locator, '/');
    assert Ordinary(parts[0]);
    assert locator != "" by {
      assert Split("", '/')[0] == "";
    }
    assert locator[0] == parts[0][0] by {
      assert locator == if |parts| == 1 then parts[0] else parts[0] + ['/'] + Join(parts[1..], '/');
    }
    if |parts| > 1 {
      assert locator[|parts[0]|] == '/';
    }
    FirstPartOf("../", locator);
  }

  /** A climbing prefix would have to be the first component. */
  lemma FirstPartOf(climb: string, locator: string)
    requires climb == "../"
    ensures climb <= locator ==> Split(locator, '/')[0] == ".."
  {
    if climb <= locator {
      assert locator == ".." + ['/'] + locator[3..];
      SplitConcat("..", locator[3..], '/');
    }
  }

  /** A normal locator is a fixed point exactly when it survives trimming. */
  lemma NormalLocatorIsFixedPoint(locator: string)
    requires NormalLocator(locator) && '\0' !in locator && '\\' !in locator
    ensures NormalizeLocator(locator) == Ok(locator) <==> TrimSpace(locator) == locator
  {
    var trimmed := TrimSpace(locator);
    var slashed := ReplaceChar(trimmed, '\\', '/');
    if NormalizeLocator(locator) == Ok(locator) {
      CleanShortens(slashed);
    }
    if trimmed == locator {
      assert slashed == locator;
      CleanPartsOrdinary([], Split(locator, '/'));
      JoinSplit(locator, '/');
      assert [] + Split(locator, '/') == Split(locator, '/');
      assert Clean(locator) == locator;
      OrdinaryLocatorStaysInside(locator);
    }
  }

  lemma NormalScopeIsFixedPoint(scope: Scope)
    requires NormalScope(scope)
    ensures NormalizeOne(Render(scope)) == Ok(scope) <==> SurvivesTrim(scope)
  {
    NamesAreFixedPoints(scope);
    if !scope.kind.RepositoryKind? {
      NormalLocatorIsFixedPoint(scope.locator);
    }
  }

  /** Normalising an accepted request again changes nothing exactly when no locator in it begins
      or ends with white space: trimming runs before cleaning, so "./ a" is accepted as " a". */
  lemma NormalizingAgain(scopes: seq<ScopeInput>)
    requires NormalizeScopes(scopes).Ok?
    ensures var result := NormalizeScopes(scopes).value;
      NormalizeScopes(RenderAll(result)) == Ok(result) <==> forall s :: s in result ==> SurvivesTrim(s)
  {
    NormalForm(scopes);
    hide NormalizeOne, NormalScope, Render, SurvivesTrim, NormalizeScopes;
    var result := NormalizeScopes(scopes).value;
    forall s | s in result ensures NormalizeOne(Render(s)) == Ok(s) <==> SurvivesTrim(s) {
      NormalScopeIsFixedPoint(s);
    }
    NormalizeRendered(result);
  }

  predicate SurvivesTrim(s: Scope)
  {
    s.kind.RepositoryKind? || TrimSpace(s.locator) == s.locator
  }

  function RenderAll(scopes: seq<Scope>): (r: seq<ScopeInput>)
    ensures |r| == |scopes| && forall i :: 0 <= i < |r| ==> r[i] == Render(scopes[i])
  {
    seq(|scopes|, i requires 0 <= i < |scopes| => Render(scopes[i]))
  }

  lemma NormalizeRendered(result: seq<Scope>)
    requires 0 < |result| <= MAX_SCOPES
    requires forall i, j :: 0 <= i < j < |result| ==> result[i] != result[j]
    ensures NormalizeScopes(RenderAll(result)) == Ok(result) <==> forall s :: s in result ==> NormalizeOne(Render(s)) == Ok(s)
  {
    hide NormalizeOne, Render;
    var again := RenderAll(result);
    var each := Traverse(NormalizeOne, again);
    if NormalizeScopes(again) == Ok(result) {
      assert each.value == result;
      forall s | s in result ensures NormalizeOne(Render(s)) == Ok(s) {
        var i :| 0 <= i < |result| && result[i] == s;
        assert NormalizeOne(again[i]) == Ok(each.value[i]);
      }
    }
    if forall s :: s in result ==> NormalizeOne(Render(s)) == Ok(s) {
      assert forall i :: 0 <= i < |again| ==> NormalizeOne(again[i]) == Ok(result[i]);
      assert each.Ok?;
      assert each.value == result;
      DistinctOfDistinct(result);
    }
  }

  /** The condition is not idle: "./ a" is accepted, its normal form is " a", and " a" normalises to "a". */
  lemma NormalizingAgainCanDiffer()
    ensures NormalizeLocator("./ a") == Ok(" a")
    ensures NormalizeLocator(" a") == Ok("a")
  {
    PlainLocator("./ a", "./ a", [".", " a"], [" a"]);
    PlainLocator(" a", "a", ["a"], ["a"]);
  }

  lemma PlainLocator(raw: string, trimmed: string, parts: seq<string>, kept: seq<string>)
    requires TrimSpace(raw) == trimmed && '\\' !in trimmed && trimmed != "" && trimmed[0] != '/'
    requires Join(parts, '/') == trimmed && parts != [] && forall part :: part in parts ==> '/' !in part
    requires CleanParts([], parts) == kept && |kept| == 1 && Ordinary(kept[0]) && '\0' !in kept[0]
    ensures NormalizeLocator(raw) == Ok(kept[0])
  {
    SplitJoin(parts, '/');
    assert ReplaceChar(trimmed, '\\', '/') == trimmed;
    assert Clean(trimmed) == kept[0];
    assert "../"[2] == '/' && '/' !in kept[0];
  }

  /** The keys seen are those of the scopes kept, and keys tell scopes without a null character apart. */
  ghost predicate Seen(kept: seq<Scope>, seen: set<string>)
  {
    && (forall s :: s in kept ==> '\0' !in s.locator)
    && seen == set s | s in kept :: SeenKey(s)
  }

  lemma SeenNone()
    ensures Seen([], {})
  {
  }

  lemma SeenMore(kept: seq<Scope>, seen: set<string>, one: Scope)
    requires Seen(kept, seen) && '\0' !in one.locator
    ensures SeenKey(one) in seen <==> one in kept
    ensures Seen(kept + [one], seen + {SeenKey(one)})
  {
    hide SeenKey;
    if SeenKey(one) in seen {
      var s :| s in kept && SeenKey(s) == SeenKey(one);
      SeenKeyIsInjective(s, one);
    }
  }

  /** normalizeScopes: one pass with a set of the keys already seen. */
  method Normalize(scopes: seq<ScopeInput>) returns (r: Result<seq<Scope>, ScopeError>)
    ensures r == NormalizeScopes(scopes)
  {
    hide NormalizeOne, NormalScope, SeenKey, Seen;
    if |scopes| == 0 || |scopes| > MAX_SCOPES {
      return Err(WrongCount);
    }
    SeenNone();
    var result: seq<Scope> := [];
    var seen: set<string> := {};
    var i := 0;
    while i < |scopes|
      invariant 0 <= i <= |scopes|
      invariant Traverse(NormalizeOne, scopes[..i]).Ok?
      invariant result == Distinct(Traverse(NormalizeOne, scopes[..i]).value)
      invariant Seen(result, seen)
    {
      var one := NormalizeOne(scopes[i]);
      if one.Err? {
        TraverseFirstError(NormalizeOne, scopes, i);
        return Err(one.error);
      }
      NormalizeOneIsNormal(scopes[i]);
      assert scopes[..i + 1] == scopes[..i] + [scopes[i]];
      TraverseSnoc(NormalizeOne, scopes[..i], scopes[i]);
      DistinctSnoc(Traverse(NormalizeOne, scopes[..i]).value, one.value);
      SeenMore(result, seen, one.value);
      var key := SeenKey(one.value);
      if key !in seen {
        seen := seen + {key};
        result := result + [one.value];
      }
      i := i + 1;
    }
    assert scopes[..i] == scopes;
    r := Ok(result);
  }
}
