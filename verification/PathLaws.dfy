/** What cleaning a path means: the laws of ".", ".." and empty components, and the place in the
    repository that an accepted locator names. */
module PathLaws {
  import opened Wrappers
  import opened Text
  import opened Scopes

  // ---- The laws on component lists ----

  /** Cleaning a list in two goes. */
  lemma {:induction false} CleanConcat(kept: seq<string>, a: seq<string>, b: seq<string>)
    ensures CleanParts(kept, a + b) == CleanParts(CleanParts(kept, a), b)
    decreases |a|
  {
    if a == [] {
      assert a + b == b;
    } else {
      assert (a + b)[0] == a[0] && (a + b)[1..] == a[1..] + b;
      CleanConcat(CleanPush(kept, a[0]), a[1..], b);
    }
  }

  lemma CleanSnoc(kept: seq<string>, parts: seq<string>, last: string)
    ensures CleanParts(kept, parts + [last]) == CleanPush(CleanParts(kept, parts), last)
  {
    CleanConcat(kept, parts, [last]);
    assert [last][1..] == [];
  }

  /** An empty component and "." may be left out anywhere. */
  lemma DotVanishes(a: seq<string>, part: string, b: seq<string>)
    requires part == "" || part == "."
    ensures CleanParts([], a + [part] + b) == CleanParts([], a + b)
  {
    CleanConcat([], a + [part], b);
    CleanSnoc([], a, part);
    CleanConcat([], a, b);
  }

  /** A name and the ".." behind it cancel anywhere. */
  lemma UpCancelsName(a: seq<string>, name: string, b: seq<string>)
    requires Ordinary(name)
    ensures CleanParts([], a + [name, ".."] + b) == CleanParts([], a + b)
  {
    CleanConcat([], a + [name, ".."], b);
    CleanConcat([], a, [name, ".."]);
    CleanConcat([], a, b);
    var kept := CleanParts([], a);
    assert [name, ".."][1..] == [".."] && [".."][1..] == [];
    assert CleanPush(CleanPush(kept, name), "..") == kept;
    assert CleanParts(CleanPush(kept, name), [".."]) == CleanParts(kept, []);
  }

  function Ups(n: nat): seq<string>
  {
    seq(n, _ => "..")
  }

  /** Leading ".." stay. */
  lemma {:induction false} LeadingUpsStay(n: nat)
    ensures CleanParts([], Ups(n)) == Ups(n)
  {
    if n > 0 {
      LeadingUpsStay(n - 1);
      assert Ups(n) == Ups(n - 1) + [".."];
      CleanSnoc([], Ups(n - 1), "..");
    }
  }

  // ---- Where a path leads ----

  /** A place relative to the repository's root: so many levels up, and from there down the names. */
  datatype Place = Place(ups: nat, names: seq<string>)

  /** Reads a path from its end: every ".." owes one name, and a name is part of the place unless it is owed. */
  function Leads(parts: seq<string>, owed: nat): Place
  {
    if parts == [] then Place(owed, [])
    else
      var before, last := parts[..|parts| - 1], parts[|parts| - 1];
      if last == "" || last == "." then Leads(before, owed)
      else if last == ".." then Leads(before, owed + 1)
      else if owed > 0 then Leads(before, owed - 1)
      else
        var place := Leads(before, 0);
        Place(place.ups, place.names + [last])
  }

  /** Cleaning keeps exactly the place to which a path leads. */
  lemma {:induction false} CleaningKeepsThePlace(parts: seq<string>, owed: nat)
    requires forall part :: part in parts ==> '/' !in part
    ensures var place := Leads(parts, owed);
      CleanParts([], parts + Ups(owed)) == Ups(place.ups) + place.names
    ensures forall name :: name in Leads(parts, owed).names ==> Ordinary(name)
  {
    if parts == [] {
      LeadingUpsStay(owed);
      assert parts + Ups(owed) == Ups(owed);
    } else {
      var before, last := parts[..|parts| - 1], parts[|parts| - 1];
      assert parts == before + [last];
      if last == "" || last == "." {
        DotVanishes(before, last, Ups(owed));
        CleaningKeepsThePlace(before, owed);
      } else if last == ".." {
        assert parts + Ups(owed) == before + Ups(owed + 1);
        CleaningKeepsThePlace(before, owed + 1);
      } else if owed > 0 {
        assert parts + Ups(owed) == before + [last, ".."] + Ups(owed - 1);
        UpCancelsName(before, last, Ups(owed - 1));
        CleaningKeepsThePlace(before, owed - 1);
      } else {
        assert parts + Ups(0) == parts && before + Ups(0) == before;
        CleaningKeepsThePlace(before, 0);
        CleanSnoc([], before, last);
        var place := Leads(before, 0);
        assert Ups(place.ups) + place.names + [last] == Ups(place.ups) + (place.names + [last]);
      }
    }
  }

  // ---- Locators ----

  /** The components of a locator as it was asked for. */
  function RawParts(raw: string): seq<string>
  {
    Split(ReplaceChar(TrimSpace(raw), '\\', '/'), '/')
  }

  /** A locator is accepted if and only if it is relative, does not leave the repository or name its root,
      and holds no NUL; and it is accepted as the place to which its components lead. */
  lemma AcceptedLocatorNamesThePlace(raw: string)
    ensures var place := Leads(RawParts(raw), 0);
      NormalizeLocator(raw).Ok? <==>
        && TrimSpace(raw) != ""
        && TrimSpace(raw)[0] != '/' && TrimSpace(raw)[0] != '\\'
        && place.ups == 0
        && place.names != []
        && forall name :: name in place.names ==> '\0' !in name
    ensures NormalizeLocator(raw).Ok? ==> Split(NormalizeLocator(raw).value, '/') == Leads(RawParts(raw), 0).names
  {
    var slashed := ReplaceChar(TrimSpace(raw), '\\', '/');
    var parts, place := RawParts(raw), Leads(RawParts(raw), 0);
    SplitParts(slashed, '/');
    CleaningKeepsThePlace(parts, 0);
    assert parts + Ups(0) == parts;
    var kept := CleanParts([], parts);
    assert kept == Ups(place.ups) + place.names;
    hide TrimSpace, CleanParts, Leads;
    if place.ups > 0 {
      assert kept[0] == Ups(place.ups)[0] == "..";
      ClimbingJoin(kept);
    } else if place.names != [] {
      assert kept == place.names;
      SplitJoin(kept, '/');
      assert NormalLocator(Join(kept, '/'));
      OrdinaryLocatorStaysInside(Join(kept, '/'));
      NulInJoin(kept);
    }
  }

  lemma {:induction false} NulInJoin(parts: seq<string>)
    ensures '\0' in Join(parts, '/') <==> exists part :: part in parts && '\0' in part
  {
    if |parts| > 1 {
      NulInJoin(parts[1..]);
      assert forall part :: part in parts <==> part == parts[0] || part in parts[1..];
    }
  }

  /** strings.TrimSpace takes away white space at both ends and nothing else. */
  lemma TrimSpaceMeans(s: string) returns (before: string, after: string)
    ensures s == before + TrimSpace(s) + after
    ensures forall i :: 0 <= i < |before| ==> IsSpace(before[i])
    ensures forall i :: 0 <= i < |after| ==> IsSpace(after[i])
    ensures TrimSpace(s) != "" ==> !IsSpace(TrimSpace(s)[0]) && !IsSpace(TrimSpace(s)[|TrimSpace(s)| - 1])
  {
    var left := TrimLeft(s);
    before := TrimmedLeft(s);
    after := TrimmedRight(left);
    hide TrimLeft, TrimRight, IsSpace;
    assert s == before + (TrimSpace(s) + after) == before + TrimSpace(s) + after;
    if TrimSpace(s) != "" {
      assert TrimSpace(s)[0] == left[0];
    }
  }

  lemma {:induction false} TrimmedLeft(s: string) returns (before: string)
    ensures s == before + TrimLeft(s) && forall i :: 0 <= i < |before| ==> IsSpace(before[i])
    ensures TrimLeft(s) != "" ==> !IsSpace(TrimLeft(s)[0])
  {
    hide IsSpace;
    if s != "" && IsSpace(s[0]) {
      var rest := TrimmedLeft(s[1..]);
      before := [s[0]] + rest;
    } else {
      before := "";
    }
  }

  lemma {:induction false} TrimmedRight(s: string) returns (after: string)
    ensures s == TrimRight(s) + after && forall i :: 0 <= i < |after| ==> IsSpace(after[i])
    ensures TrimRight(s) != "" ==> !IsSpace(TrimRight(s)[|TrimRight(s)| - 1])
  {
    hide IsSpace;
    if s != "" && IsSpace(s[|s| - 1]) {
      var rest := TrimmedRight(s[..|s| - 1]);
      after := rest + [s[|s| - 1]];
      assert s == s[..|s| - 1] + [s[|s| - 1]];
    } else {
      after := "";
    }
  }

  // ---- Whole scopes ----

  /** A scope is accepted if and only if its kind and mode, trimmed and in lower case, are known names (no
      mode stands for exclusive), its locator names a place, and the result is not too long; it is accepted
      under those names, and as "." when it asks for the repository. */
  lemma NormalizeOneMeans(scope: ScopeInput)
    ensures var kind, mode := ToLower(TrimSpace(scope.kind)), ToLower(TrimSpace(scope.mode));
      && (NormalizeOne(scope).Ok? <==>
            && kind in {"repository", "path", "file"}
            && mode in {"", "exclusive", "shared"}
            && (kind == "repository" || (NormalizeLocator(scope.locator).Ok? && Utf8Length(NormalizeLocator(scope.locator).value) <= 4096)))
      && (NormalizeOne(scope).Ok? ==>
            && KindName(NormalizeOne(scope).value.kind) == kind
            && (NormalizeOne(scope).value.mode.Shared? <==> mode == "shared")
            && NormalizeOne(scope).value.locator == if kind == "repository" then "." else NormalizeLocator(scope.locator).value)
  {
    hide ToLower, TrimSpace, NormalizeLocator;
    assert |"path"| != |"repository"| && "path"[0] != "file"[0] && |"exclusive"| != |"shared"|;
    assert Utf8Length(".") == 1;
  }

  /** A request is accepted if and only if it holds 1 to 50 scopes and each of them is accepted. */
  lemma NormalizeScopesAccepts(scopes: seq<ScopeInput>)
    ensures NormalizeScopes(scopes).Ok? <==> 1 <= |scopes| <= 50 && forall i :: 0 <= i < |scopes| ==> NormalizeOne(scopes[i]).Ok?
  {
    hide NormalizeOne;
  }
}
