/**
 * String helpers shared by the server and the browser scripts: prefix and
 * substring tests, ASCII lowering, the gallery folder slug, the path
 * formatter, backslash normalisation and decimal rendering of numbers.
 */
module Text {
  import opened Base

  predicate StartsWith(s: string, prefix: string) {
    |prefix| <= |s| && s[..|prefix|] == prefix
  }

  /** An unanchored regular-expression test for a literal: `p` occurs somewhere in `s`. */
  predicate Contains(s: string, p: string)
    decreases |s|
  {
    StartsWith(s, p) || (|s| > 0 && Contains(s[1..], p))
  }

  /** `p` occurs in `s` starting at index `i`. */
  predicate OccursAt(s: string, p: string, i: int) {
    0 <= i <= |s| - |p| && s[i..i + |p|] == p
  }

  /** `Contains` agrees with the textbook definition of a substring. */
  lemma {:induction false} ContainsIff(s: string, p: string)
    ensures Contains(s, p) <==> exists i :: OccursAt(s, p, i)
    decreases |s|
  {
    if |s| > 0 {
      ContainsIff(s[1..], p);
      if Contains(s[1..], p) {
        var i :| OccursAt(s[1..], p, i);
        assert s[i + 1..i + 1 + |p|] == s[1..][i..i + |p|];
        assert OccursAt(s, p, i + 1);
      }
      if StartsWith(s, p) {
        assert OccursAt(s, p, 0);
      }
      if exists i :: OccursAt(s, p, i) {
        var i :| OccursAt(s, p, i);
        if i > 0 {
          assert s[1..][i - 1..i - 1 + |p|] == s[i..i + |p|];
          assert OccursAt(s[1..], p, i - 1);
        } else {
          assert s[..|p|] == p;
        }
      }
    } else if StartsWith(s, p) {
      assert OccursAt(s, p, 0);
    }
  }

  /** `lastIndexOf(c)`: the position of the last occurrence of `c`, or -1. */
  function LastIndexOf(s: string, c: char): (i: int)
    ensures -1 <= i < |s|
    ensures i >= 0 ==> s[i] == c
    ensures forall j :: i < j < |s| ==> s[j] != c
  {
    if |s| == 0 then -1
    else if s[|s| - 1] == c then |s| - 1
    else LastIndexOf(s[..|s| - 1], c)
  }

  predicate IsUpperAscii(c: char) { 'A' <= c <= 'Z' }

  function LowerChar(c: char): (r: char)
    ensures !IsUpperAscii(r)
    ensures !IsUpperAscii(c) ==> r == c
  {
    if IsUpperAscii(c) then (c as int + 32) as char else c
  }

  /** `toLowerCase`, restricted to the ASCII letters. */
  function ToLowerAscii(s: string): (r: string)
    ensures |r| == |s|
    ensures forall i :: 0 <= i < |s| ==> r[i] == LowerChar(s[i])
  {
    if |s| == 0 then [] else [LowerChar(s[0])] + ToLowerAscii(s[1..])
  }

  /** The characters JavaScript's `\s` class matches. */
  predicate IsJsSpace(c: char) {
    c == ' ' || c == '\t' || c == '\n' || c == '\r' || c == '\U{B}' || c == '\U{C}'
    || c == '\U{A0}' || c == '\U{1680}' || ('\U{2000}' <= c <= '\U{200A}')
    || c == '\U{2028}' || c == '\U{2029}' || c == '\U{202F}' || c == '\U{205F}'
    || c == '\U{3000}' || c == '\U{FEFF}'
  }

  /** JavaScript's `\w`: ASCII letters, digits and underscore. */
  predicate IsWordChar(c: char) {
    ('a' <= c <= 'z') || ('A' <= c <= 'Z') || ('0' <= c <= '9') || c == '_'
  }

  /** The characters a folder slug or a generated public id may hold. */
  predicate IsSlugChar(c: char) {
    IsWordChar(c) || c == '-'
  }

  /** Drops the leading run of whitespace. */
  function DropSpaces(s: string): (r: string)
    ensures |r| <= |s|
    ensures r == s[|s| - |r|..]
    ensures |r| > 0 ==> !IsJsSpace(r[0])
  {
    if |s| > 0 && IsJsSpace(s[0]) then DropSpaces(s[1..]) else s
  }

  /** `replace(/\s+/g, '-')`: every maximal run of whitespace becomes one `-`. */
  function CollapseSpaces(s: string): (r: string)
    ensures forall i :: 0 <= i < |r| ==> !IsJsSpace(r[i])
    ensures |r| <= |s|
    decreases |s|
  {
    if |s| == 0 then ""
    else if IsJsSpace(s[0]) then "-" + CollapseSpaces(DropSpaces(s[1..]))
    else [s[0]] + CollapseSpaces(s[1..])
  }

  /** `replace(/[^\w-]/g, '')`: deletes every character outside `[A-Za-z0-9_-]`. */
  function KeepSlugChars(s: string): (r: string)
    ensures forall i :: 0 <= i < |r| ==> IsSlugChar(r[i])
    ensures |r| <= |s|
  {
    Filter(s, IsSlugChar)
  }

  /**
   * The gallery folder slug:
   * `name.toLowerCase().replace(/\s+/g, '-').replace(/[^\w-]/g, '')`.
   */
  function Slug(name: string): (r: string)
    ensures forall i :: 0 <= i < |r| ==> IsSlugChar(r[i]) && !IsUpperAscii(r[i])
    ensures |r| <= |name|
  {
    var lowered := ToLowerAscii(name);
    var dashed := CollapseSpaces(lowered);
    assert forall c :: c in dashed ==> !IsUpperAscii(c) by {
      LowerCollapseHasNoUpper(name);
    }
    KeepSlugChars(dashed)
  }

  lemma LowerCollapseHasNoUpper(name: string)
    ensures forall c :: c in CollapseSpaces(ToLowerAscii(name)) ==> !IsUpperAscii(c)
  {
    var lowered := ToLowerAscii(name);
    assert forall c :: c in lowered ==> !IsUpperAscii(c);
    CollapseKeepsCharClass(lowered);
  }

  /** Collapsing whitespace introduces no character other than `-`. */
  lemma {:induction false} CollapseKeepsCharClass(s: string)
    ensures forall c :: c in CollapseSpaces(s) ==> c == '-' || c in s
    decreases |s|
  {
    if |s| > 0 {
      if IsJsSpace(s[0]) {
        var rest := DropSpaces(s[1..]);
        CollapseKeepsCharClass(rest);
        assert forall c :: c in rest ==> c in s;
      } else {
        CollapseKeepsCharClass(s[1..]);
      }
    }
  }

  /** Text that is already made of slug characters in lower case passes through each step unchanged. */
  lemma {:induction false} SlugCharsAreFixed(s: string)
    requires forall i :: 0 <= i < |s| ==> IsSlugChar(s[i]) && !IsUpperAscii(s[i])
    ensures ToLowerAscii(s) == s
    ensures CollapseSpaces(s) == s
    ensures KeepSlugChars(s) == s
  {
    if |s| > 0 {
      SlugCharsAreFixed(s[1..]);
      assert !IsJsSpace(s[0]);
    }
    FilterKeepsAll(s, IsSlugChar);
  }

  /** Slugging a slug changes nothing. */
  lemma SlugIdempotent(name: string)
    ensures Slug(Slug(name)) == Slug(name)
  {
    SlugCharsAreFixed(Slug(name));
  }

  /**
   * `formatPath` (admin/admin.js, also inlined twice in public/js/script.js):
   * empty stays empty, absolute URLs stay as they are, any other path is made
   * to start with exactly one added `/` when it lacks one.
   */
  function FormatPath(path: Option<string>): (r: string)
    ensures !Truthy(path) ==> r == ""
    ensures Truthy(path) && (StartsWith(path.value, "http://") || StartsWith(path.value, "https://")) ==> r == path.value
    ensures Truthy(path) ==> StartsWith(r, "/") || StartsWith(r, "http://") || StartsWith(r, "https://")
    ensures Truthy(path) ==> |path.value| <= |r| <= |path.value| + 1 && r[|r| - |path.value|..] == path.value
    ensures Truthy(path) && StartsWith(path.value, "/") ==> r == path.value
    ensures Truthy(path) && !StartsWith(path.value, "/") && !StartsWith(path.value, "http://") && !StartsWith(path.value, "https://")
            ==> r == "/" + path.value
  {
    if !Truthy(path) then ""
    else FormatLocal(path.value)
  }

  /** The path formatting without the empty guard, as the hero-image mapping does it. */
  function FormatLocal(p: string): (r: string)
    ensures StartsWith(r, "/") || StartsWith(r, "http://") || StartsWith(r, "https://")
    ensures |p| <= |r| <= |p| + 1 && r[|r| - |p|..] == p
    ensures StartsWith(p, "/") || StartsWith(p, "http://") || StartsWith(p, "https://") ==> r == p
    ensures !StartsWith(p, "/") && !StartsWith(p, "http://") && !StartsWith(p, "https://") ==> r == "/" + p
  {
    if StartsWith(p, "http://") || StartsWith(p, "https://") then p
    else if StartsWith(p, "/") then p
    else "/" + p
  }

  /** Formatting a formatted path changes nothing. */
  lemma FormatPathIdempotent(path: Option<string>)
    ensures FormatPath(Some(FormatPath(path))) == FormatPath(path)
  {
  }

  /** `replace(/\\/g, '/')`: every backslash becomes a forward slash. */
  function NormalizeSlashes(s: string): (r: string)
    ensures |r| == |s|
    ensures forall i :: 0 <= i < |s| ==> r[i] == (if s[i] == '\\' then '/' else s[i])
    ensures '\\' !in r
  {
    if |s| == 0 then "" else [if s[0] == '\\' then '/' else s[0]] + NormalizeSlashes(s[1..])
  }

  function DigitChar(d: nat): char
    requires d < 10
  {
    "0123456789"[d]
  }

  predicate IsDigit(c: char) { '0' <= c <= '9' }

  /** `String(n)` for a non-negative integer. */
  function Decimal(n: nat): (r: string)
    ensures |r| > 0
    ensures forall i :: 0 <= i < |r| ==> IsDigit(r[i])
    ensures n < 10 <==> |r| == 1
  {
    if n < 10 then [DigitChar(n)] else Decimal(n / 10) + [DigitChar(n % 10)]
  }

  /** Reads a string of digits back as a number. */
  function ParseDecimal(s: string): nat
    requires forall i :: 0 <= i < |s| ==> IsDigit(s[i])
  {
    if |s| == 0 then 0
    else
      assert IsDigit(s[|s| - 1]);
      ParseDecimal(s[..|s| - 1]) * 10 + (s[|s| - 1] as int - '0' as int)
  }

  /** The rendering of a number reads back as that number. */
  lemma {:induction false} DecimalRoundTrip(n: nat)
    ensures ParseDecimal(Decimal(n)) == n
  {
    if n >= 10 {
      DecimalRoundTrip(n / 10);
      var s := Decimal(n);
      assert s[..|s| - 1] == Decimal(n / 10);
    }
  }

  /** Template-literal rendering of an integer: a minus sign for negatives. */
  function NumberText(x: int): (r: string)
    ensures |r| > 0
    ensures x >= 0 ==> r == Decimal(x)
    ensures x < 0 ==> r == "-" + Decimal(-x)
  {
    if x < 0 then "-" + Decimal(-x) else Decimal(x)
  }

  /** `padStart(2, '0')`. */
  function PadStart2(s: string): (r: string)
    ensures |r| == if |s| < 2 then 2 else |s|
    ensures r[|r| - |s|..] == s
    ensures forall i :: 0 <= i < |r| - |s| ==> r[i] == '0'
  {
    if |s| == 0 then "00" else if |s| == 1 then "0" + s else s
  }

  /** A zero-padded counter still reads back as the number it shows. */
  lemma {:induction false} PaddedDecimalRoundTrip(n: nat)
    ensures var r := PadStart2(Decimal(n)); |r| >= 2 && (forall i :: 0 <= i < |r| ==> IsDigit(r[i])) && ParseDecimal(r) == n
  {
    DecimalRoundTrip(n);
    var d := Decimal(n);
    var r := PadStart2(d);
    if |d| == 1 {
      assert r == "0" + d;
      assert r[..1] == "0";
      assert ParseDecimal("0") == 0 by {
        assert "0"[..0] == "";
      }
      assert d[..0] == "";
    }
  }
}
