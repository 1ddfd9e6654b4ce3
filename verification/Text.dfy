/** The parts of Go's strings and path packages that the modelled code relies on. */
module Text {

  /** One more character in front of the first part. */
  function Prepend(c: char, parts: seq<string>): (r: seq<string>)
    requires parts != []
    ensures |r| == |parts|
  {
    [[c] + parts[0]] + parts[1..]
  }

  /** Splits at every separator, as strings.Split does for a one-character separator. */
  function Split(s: string, sep: char): (parts: seq<string>)
    ensures |parts| >= 1
  {
    if s == "" then [""]
    else if s[0] == sep then [""] + Split(s[1..], sep)
    else Prepend(s[0], Split(s[1..], sep))
  }

  function Join(parts: seq<string>, sep: char): string
  {
    if parts == [] then ""
    else if |parts| == 1 then parts[0]
    else parts[0] + [sep] + Join(parts[1..], sep)
  }

  /** No part holds the separator. */
  lemma {:induction false} SplitParts(s: string, sep: char)
    ensures forall part :: part in Split(s, sep) ==> sep !in part
  {
    if s != "" {
      SplitParts(s[1..], sep);
      var rest := Split(s[1..], sep);
      forall part | part in Split(s, sep) ensures sep !in part {
        if part !in rest && s[0] != sep {
          assert part == [s[0]] + rest[0];
        }
      }
    }
  }

  /** A text without the separator is one part. */
  lemma {:induction false} SplitWhole(s: string, sep: char)
    requires sep !in s
    ensures Split(s, sep) == [s]
  {
    if s != "" {
      SplitWhole(s[1..], sep);
      assert [s[0]] + s[1..] == s;
      assert Prepend(s[0], [s[1..]]) == [s];
    }
  }

  lemma JoinPrepend(c: char, parts: seq<string>, sep: char)
    requires parts != []
    ensures Join(Prepend(c, parts), sep) == [c] + Join(parts, sep)
  {
    if |parts| > 1 {
      assert Prepend(c, parts)[1..] == parts[1..];
      assert ([c] + parts[0]) + [sep] + Join(parts[1..], sep) == [c] + (parts[0] + [sep] + Join(parts[1..], sep));
    }
  }

  lemma PrependConcat(c: char, a: seq<string>, b: seq<string>)
    requires a != []
    ensures Prepend(c, a + b) == Prepend(c, a) + b
  {
    assert (a + b)[1..] == a[1..] + b;
  }

  lemma {:induction false} JoinSplit(s: string, sep: char)
    ensures Join(Split(s, sep), sep) == s
  {
    if s != "" {
      JoinSplit(s[1..], sep);
      var rest := Split(s[1..], sep);
      if s[0] == sep {
        assert ([""] + rest)[1..] == rest;
        assert s == "" + [sep] + s[1..];
      } else {
        JoinPrepend(s[0], rest, sep);
        assert s == [s[0]] + s[1..];
      }
    }
  }

  lemma {:induction false} SplitConcat(a: string, b: string, sep: char)
    ensures Split(a + [sep] + b, sep) == Split(a, sep) + Split(b, sep)
  {
    hide Prepend;
    var whole := a + [sep] + b;
    if a == "" {
      assert whole[0] == sep && whole[1..] == b;
    } else {
      SplitConcat(a[1..], b, sep);
      assert whole[0] == a[0] && whole[1..] == a[1..] + [sep] + b;
      var rest, tail := Split(a[1..], sep), Split(b, sep);
      if a[0] == sep {
        assert [""] + (rest + tail) == ([""] + rest) + tail;
      } else {
        PrependConcat(a[0], rest, tail);
      }
    }
  }

  lemma {:induction false} SplitJoin(parts: seq<string>, sep: char)
    requires parts != []
    requires forall part :: part in parts ==> sep !in part
    ensures Split(Join(parts, sep), sep) == parts
  {
    SplitWhole(parts[0], sep);
    if |parts| > 1 {
      SplitJoin(parts[1..], sep);
      SplitConcat(parts[0], Join(parts[1..], sep), sep);
    }
  }

  lemma {:induction false} JoinConcat(a: seq<string>, b: seq<string>, sep: char)
    requires a != [] && b != []
    ensures Join(a + b, sep) == Join(a, sep) + [sep] + Join(b, sep)
  {
    if |a| == 1 {
      assert (a + b)[1..] == b;
    } else {
      JoinConcat(a[1..], b, sep);
      assert (a + b)[1..] == a[1..] + b;
    }
  }

  /** unicode.IsSpace. */
  predicate IsSpace(c: char)
  {
    || '\t' <= c <= '\r' || c == ' ' || c == '\U{85}' || c == '\U{A0}' || c == '\U{1680}'
    || '\U{2000}' <= c <= '\U{200A}' || c == '\U{2028}' || c == '\U{2029}' || c == '\U{202F}'
    || c == '\U{205F}' || c == '\U{3000}'
  }

  function TrimLeft(s: string): (r: string)
    ensures |r| <= |s|
    ensures |r| == |s| ==> r == s
  {
    if s != "" && IsSpace(s[0]) then TrimLeft(s[1..]) else s
  }

  function TrimRight(s: string): (r: string)
    ensures |r| <= |s|
    ensures |r| == |s| ==> r == s
  {
    if s != "" && IsSpace(s[|s| - 1]) then TrimRight(s[..|s| - 1]) else s
  }

  /** strings.TrimSpace. */
  function TrimSpace(s: string): (r: string)
    ensures |r| <= |s|
    ensures |r| == |s| ==> r == s
  {
    TrimRight(TrimLeft(s))
  }

  /** unicode.ToLower on every character that has an ASCII lower-case form: the ASCII capitals,
      U+0130 and U+212A. Other characters stay outside ASCII, which is all the callers compare with. */
  function LowerChar(c: char): char
  {
    if 'A' <= c <= 'Z' then c - 'A' + 'a'
    else if c == '\U{130}' then 'i'
    else if c == '\U{212A}' then 'k'
    else c
  }

  function ToLower(s: string): (r: string)
    ensures |r| == |s|
    ensures forall i :: 0 <= i < |s| ==> r[i] == LowerChar(s[i])
  {
    seq(|s|, i requires 0 <= i < |s| => LowerChar(s[i]))
  }

  /** The ASCII capitals and their small letters; a text is in lower case once it has been lowered. */
  lemma LowerCase(i: nat, s: string)
    ensures i < 26 ==> LowerChar("ABCDEFGHIJKLMNOPQRSTUVWXYZ"[i]) == "abcdefghijklmnopqrstuvwxyz"[i]
    ensures i < 26 ==> LowerChar("abcdefghijklmnopqrstuvwxyz"[i]) == "abcdefghijklmnopqrstuvwxyz"[i]
    ensures ToLower(ToLower(s)) == ToLower(s)
  {
  }

  /** strings.ReplaceAll for one character. */
  function ReplaceChar(s: string, from: char, to: char): (r: string)
    ensures |r| == |s|
    ensures forall i :: 0 <= i < |s| ==> r[i] == if s[i] == from then to else s[i]
  {
    seq(|s|, i requires 0 <= i < |s| => if s[i] == from then to else s[i])
  }

  /** len of the UTF-8 encoding. */
  function Utf8Length(s: string): nat
  {
    if s == "" then 0
    else
      (if s[0] < '\U{80}' then 1 else if s[0] < '\U{800}' then 2 else if s[0] < '\U{10000}' then 3 else 4)
      + Utf8Length(s[1..])
  }

  /** The bytes of one character: the leading byte tells how many follow, six bits in each. */
  function Utf8Char(c: char): seq<int>
  {
    var n := c as int;
    if n < 0x80 then [n]
    else if n < 0x800 then [0xC0 + n / 0x40, 0x80 + n % 0x40]
    else if n < 0x10000 then [0xE0 + n / 0x1000, 0x80 + n / 0x40 % 0x40, 0x80 + n % 0x40]
    else [0xF0 + n / 0x40000, 0x80 + n / 0x1000 % 0x40, 0x80 + n / 0x40 % 0x40, 0x80 + n % 0x40]
  }

  function Utf8(s: string): seq<int>
  {
    if s == "" then [] else Utf8Char(s[0]) + Utf8(s[1..])
  }

  function Utf8Value(bytes: seq<int>): int
  {
    if |bytes| == 1 then bytes[0]
    else if |bytes| == 2 then (bytes[0] - 0xC0) * 0x40 + (bytes[1] - 0x80)
    else if |bytes| == 3 then ((bytes[0] - 0xE0) * 0x40 + (bytes[1] - 0x80)) * 0x40 + (bytes[2] - 0x80)
    else if |bytes| == 4 then (((bytes[0] - 0xF0) * 0x40 + (bytes[1] - 0x80)) * 0x40 + (bytes[2] - 0x80)) * 0x40 + (bytes[3] - 0x80)
    else -1
  }

  /** Six bits at a time. */
  lemma SixBits(n: nat)
    ensures n == n / 0x40 * 0x40 + n % 0x40 && n / 0x1000 == n / 0x40 / 0x40 && n / 0x40000 == n / 0x1000 / 0x40
  {
  }

  /** The encoding of a character gives it back. */
  lemma Utf8Decodes(c: char)
    ensures Utf8Value(Utf8Char(c)) == c as int
  {
    var n := c as int;
    SixBits(n);
    SixBits(n / 0x40);
    SixBits(n / 0x1000);
  }

  /** Its bytes are of the ranges that section 3 of RFC 3629 gives to leading and to following bytes. */
  lemma Utf8Ranges(c: char)
    ensures var bytes := Utf8Char(c);
      && (bytes[0] < 0x80 <==> |bytes| == 1) && (0xC2 <= bytes[0] < 0xE0 <==> |bytes| == 2)
      && (0xE0 <= bytes[0] < 0xF0 <==> |bytes| == 3) && (0xF0 <= bytes[0] < 0xF8 <==> |bytes| == 4)
      && forall i :: 0 < i < |bytes| ==> 0x80 <= bytes[i] < 0xC0
  {
    var n := c as int;
    assert n < 0x110000;
    assert n < 0x800 ==> n / 0x40 < 0x20;
    assert n < 0x10000 ==> n / 0x1000 < 0x10;
    assert n / 0x40000 < 8;
  }

  lemma {:induction false} Utf8LengthCounts(s: string)
    ensures Utf8Length(s) == |Utf8(s)|
  {
    if s != "" {
      Utf8LengthCounts(s[1..]);
    }
  }

  // ---- path.Clean on relative paths, from the documentation of Go's path package ----

  /** One component against the components kept so far: empty and "." vanish, ".." removes the
      component before it unless there is none to remove. */
  function CleanPush(kept: seq<string>, part: string): seq<string>
  {
    if part == "" || part == "." then kept
    else if part == ".." && kept != [] && kept[|kept| - 1] != ".." then kept[..|kept| - 1]
    else kept + [part]
  }

  function CleanParts(kept: seq<string>, parts: seq<string>): seq<string>
    decreases |parts|
  {
    if parts == [] then kept else CleanParts(CleanPush(kept, parts[0]), parts[1..])
  }

  function Clean(path: string): string
  {
    var kept := CleanParts([], Split(path, '/'));
    if kept == [] then "." else Join(kept, '/')
  }

  predicate Ordinary(part: string)
  {
    part != "" && part != "." && part != ".." && '/' !in part
  }

  /** What CleanParts keeps: leading ".." components, then ordinary ones. */
  ghost predicate Reduced(kept: seq<string>)
  {
    && (forall i :: 0 <= i < |kept| ==> Ordinary(kept[i]) || kept[i] == "..")
    && (forall i, j :: 0 <= i < j < |kept| && kept[j] == ".." ==> kept[i] == "..")
  }

  lemma {:induction false} CleanPartsReduced(kept: seq<string>, parts: seq<string>)
    requires Reduced(kept)
    requires forall part :: part in parts ==> '/' !in part
    ensures Reduced(CleanParts(kept, parts))
    decreases |parts|
  {
    if parts != [] {
      var next := CleanPush(kept, parts[0]);
      assert Reduced(next) by {
        if next == kept + [parts[0]] && parts[0] == ".." && kept != [] {
          assert kept[|kept| - 1] == "..";
        }
      }
      CleanPartsReduced(next, parts[1..]);
    }
  }

  lemma {:induction false} CleanPartsOrdinary(kept: seq<string>, parts: seq<string>)
    requires forall part :: part in parts ==> Ordinary(part)
    ensures CleanParts(kept, parts) == kept + parts
    decreases |parts|
  {
    if parts != [] {
      CleanPartsOrdinary(kept + [parts[0]], parts[1..]);
      assert parts == [parts[0]] + parts[1..];
      assert kept + [parts[0]] + parts[1..] == kept + parts;
      assert Ordinary(parts[0]);
    } else {
      assert kept + parts == kept;
    }
  }

  function Weight(parts: seq<string>): nat
  {
    if parts == [] then 0 else Weight(parts[..|parts| - 1]) + |parts[|parts| - 1]| + 1
  }

  lemma {:induction false} WeightConcat(a: seq<string>, b: seq<string>)
    ensures Weight(a + b) == Weight(a) + Weight(b)
    decreases |b|
  {
    if b == [] {
      assert a + b == a;
    } else {
      WeightConcat(a, b[..|b| - 1]);
      assert (a + b)[..|a + b| - 1] == a + b[..|b| - 1];
    }
  }

  lemma {:induction false} JoinLength(parts: seq<string>, sep: char)
    requires parts != []
    ensures |Join(parts, sep)| + 1 == Weight(parts)
  {
    WeightConcat(parts[..1], parts[1..]);
    assert parts[..1] + parts[1..] == parts;
    if |parts| > 1 {
      JoinLength(parts[1..], sep);
    } else {
      assert Weight(parts[..1]) == |parts[0]| + 1 && parts[1..] == [];
    }
  }

  lemma {:induction false} CleanPartsWeight(kept: seq<string>, parts: seq<string>)
    ensures Weight(CleanParts(kept, parts)) <= Weight(kept) + Weight(parts)
    decreases |parts|
  {
    if parts != [] {
      var next := CleanPush(kept, parts[0]);
      CleanPartsWeight(next, parts[1..]);
      WeightConcat(parts[..1], parts[1..]);
      assert parts[..1] + parts[1..] == parts;
      assert Weight(parts[..1]) == |parts[0]| + 1;
      assert Weight(next) <= Weight(kept) + |parts[0]| + 1 by {
        if next == kept + [parts[0]] {
          WeightConcat(kept, [parts[0]]);
        }
      }
    }
  }

  /** Cleaning never lengthens a non-empty path. */
  lemma CleanShortens(path: string)
    requires path != ""
    ensures |Clean(path)| <= |path|
  {
    var parts := Split(path, '/');
    CleanPartsWeight([], parts);
    JoinSplit(path, '/');
    JoinLength(parts, '/');
    if CleanParts([], parts) != [] {
      JoinLength(CleanParts([], parts), '/');
    }
  }

  // ---- Decimal numerals ----

  function Decimal(n: nat): (r: string)
    ensures r != ""
  {
    var digit := [('0' as int + n % 10) as char];
    if n < 10 then digit else Decimal(n / 10) + digit
  }

  predicate IsDigit(c: char)
  {
    '0' <= c <= '9'
  }

  lemma {:induction false} DecimalIsDigits(n: nat)
    ensures forall i :: 0 <= i < |Decimal(n)| ==> IsDigit(Decimal(n)[i])
  {
    if n >= 10 {
      DecimalIsDigits(n / 10);
    }
  }

  /** The number a numeral stands for. */
  function NumeralValue(s: string): int
  {
    if s == "" then 0 else 10 * NumeralValue(s[..|s| - 1]) + (s[|s| - 1] as int - '0' as int)
  }

  lemma {:induction false} DecimalValue(n: nat)
    ensures NumeralValue(Decimal(n)) == n
  {
    if n >= 10 {
      DecimalValue(n / 10);
      assert Decimal(n)[..|Decimal(n)| - 1] == Decimal(n / 10);
    } else {
      assert Decimal(n)[..0] == "";
    }
  }

  lemma DecimalIsInjective(m: nat, n: nat)
    requires Decimal(m) == Decimal(n)
    ensures m == n
  {
    DecimalValue(m);
    DecimalValue(n);
  }

  function Pow10(k: nat): nat
  {
    if k == 0 then 1 else 10 * Pow10(k - 1)
  }

  lemma {:induction false} Pow10Positive(k: nat)
    ensures Pow10(k) >= 1
  {
    if k > 0 {
      Pow10Positive(k - 1);
    }
  }

  lemma {:induction false} DecimalLength(n: nat, k: nat)
    requires k > 0 && n < Pow10(k)
    ensures |Decimal(n)| <= k
  {
    if n >= 10 {
      assert k > 1 by {
        assert Pow10(0) == 1 && Pow10(1) == 10;
      }
      DecimalLength(n / 10, k - 1);
    }
  }
}
