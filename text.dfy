/** The few operations on Python `str` values that the screening application relies on:
    `strip()`, `split(sep)`, `lower()`, the `in` substring test, and the
    "split, strip, drop empty" list comprehension it uses twice. Strings are `seq<char>`. */
module Text {

  datatype Option<T> = None | Some(value: T)

  /** `c.isspace()` in Python: the ASCII whitespace controls, the information
      separators 0x1C-0x1F, and the Unicode space characters. */
  predicate IsSpace(c: char) {
    c == ' ' || ('\t' <= c <= '\r') || ('\U{1C}' <= c <= '\U{1F}')
    || c == '\U{85}' || c == '\U{A0}' || c == '\U{1680}'
    || ('\U{2000}' <= c <= '\U{200A}') || c == '\U{2028}' || c == '\U{2029}'
    || c == '\U{202F}' || c == '\U{205F}' || c == '\U{3000}'
  }

  predicate AllSpace(s: string) {
    forall i :: 0 <= i < |s| ==> IsSpace(s[i])
  }

  /** Neither end of `s` is whitespace. */
  predicate IsTrimmed(s: string) {
    s == [] || (!IsSpace(s[0]) && !IsSpace(s[|s| - 1]))
  }

  /** `r` sits at offset `i` of `s`, with nothing but whitespace on either side of it. */
  ghost predicate StrippedAt(s: string, i: int, r: string) {
    0 <= i && i + |r| <= |s| && s[i..i + |r|] == r
    && AllSpace(s[..i]) && AllSpace(s[i + |r|..])
  }

  /** `s.lstrip()` */
  function TrimStart(s: string): (r: string)
    ensures |r| <= |s| && r == s[|s| - |r|..]
    ensures AllSpace(s[..|s| - |r|])
    ensures r == [] || !IsSpace(r[0])
  {
    if s != [] && IsSpace(s[0]) then TrimStart(s[1..]) else s
  }

  /** `s.rstrip()` */
  function TrimEnd(s: string): (r: string)
    ensures |r| <= |s| && r == s[..|r|]
    ensures AllSpace(s[|r|..])
    ensures r == [] || !IsSpace(r[|r| - 1])
  {
    if s != [] && IsSpace(s[|s| - 1]) then
      var r := TrimEnd(s[..|s| - 1]);
      assert s[|r|..] == s[..|s| - 1][|r|..] + [s[|s| - 1]];
      r
    else s
  }

  /** `s.strip()`: the longest infix of `s` whose two ends are not whitespace,
      everything cut away being whitespace. */
  function Strip(s: string): (r: string)
    ensures IsTrimmed(r)
    ensures StrippedAt(s, |s| - |TrimStart(s)|, r)
  {
    var t := TrimStart(s);
    var r := TrimEnd(t);
    assert r != [] ==> r[0] == t[0];
    assert StrippedAt(s, |s| - |t|, r) by {
      assert s[|s| - |t|..][..|r|] == r;
      assert s[|s| - |t| + |r|..] == t[|r|..];
    }
    r
  }

  /** Every character of `Strip(s)` is a character of `s`. */
  lemma StripKeepsCharacters(s: string, c: char)
    requires c in Strip(s)
    ensures c in s
  {
    var r := Strip(s);
    var i := |s| - |TrimStart(s)|;
    var k :| 0 <= k < |r| && r[k] == c;
    assert s[i + k] == c;
  }

  /** A whitespace-only string strips to nothing, and only such a string does. */
  lemma {:induction false} StripEmptyIffBlank(s: string)
    ensures Strip(s) == [] <==> AllSpace(s)
  {
    var r := Strip(s);
    var i := |s| - |TrimStart(s)|;
    if r == [] {
      forall k | 0 <= k < |s| ensures IsSpace(s[k]) {
        assert s[..i][k] == s[k];
      }
    } else {
      assert r[0] == s[i];
    }
  }

  /** A string that is already trimmed strips to itself. */
  lemma StripTrimmed(s: string)
    requires IsTrimmed(s)
    ensures Strip(s) == s
  {
  }

  /** Leading whitespace does not reach the result of `strip()`. */
  lemma StripLeadingSpace(c: char, s: string)
    requires IsSpace(c)
    ensures Strip([c] + s) == Strip(s)
  {
    assert ([c] + s)[1..] == s;
  }

  /** One blank before a trimmed string is all that `strip()` removes. */
  lemma StripPadded(c: char, s: string)
    requires IsSpace(c) && IsTrimmed(s)
    ensures Strip([c] + s) == s
  {
    StripLeadingSpace(c, s);
    StripTrimmed(s);
  }

  /** `sep.join(parts)` */
  function Join(parts: seq<string>, sep: char): string
    requires |parts| >= 1
  {
    if |parts| == 1 then parts[0] else parts[0] + [sep] + Join(parts[1..], sep)
  }

  /** `s.split(sep)` for a one-character separator: the pieces between
      separators, in order; there is always at least one piece. */
  function Split(s: string, sep: char): (parts: seq<string>)
    ensures |parts| >= 1
    ensures forall k :: 0 <= k < |parts| ==> sep !in parts[k]
    ensures Join(parts, sep) == s
  {
    if s == [] then [[]]
    else
      var rest := Split(s[1..], sep);
      if s[0] == sep then
        assert ([[]] + rest)[1..] == rest;
        [[]] + rest
      else
        var parts := [[s[0]] + rest[0]] + rest[1..];
        assert parts[1..] == rest[1..];
        assert Join(parts, sep) == s by {
          if |rest| > 1 {
            assert Join(rest, sep) == rest[0] + [sep] + Join(rest[1..], sep);
          }
        }
        parts
  }

  /** Splitting at a separator splits the pieces on either side independently. */
  lemma {:induction false} SplitAround(a: string, b: string, sep: char)
    ensures Split(a + [sep] + b, sep) == Split(a, sep) + Split(b, sep)
  {
    if a == [] {
      assert a + [sep] + b == [sep] + b;
      assert ([sep] + b)[1..] == b;
    } else {
      var s := a + [sep] + b;
      assert s[0] == a[0] && s[1..] == a[1..] + [sep] + b;
      SplitAround(a[1..], b, sep);
    }
  }

  /** The comprehension `[p.strip() for p in parts if p.strip()]`. */
  function KeepStripped(parts: seq<string>): (r: seq<string>)
    ensures |r| <= |parts|
    ensures forall k :: 0 <= k < |r| ==> r[k] != [] && IsTrimmed(r[k])
  {
    if parts == [] then []
    else
      var t := Strip(parts[0]);
      (if t == [] then [] else [t]) + KeepStripped(parts[1..])
  }

  /** A character that no part contains is in no kept entry. */
  lemma {:induction false} KeepStrippedAvoids(parts: seq<string>, c: char)
    requires forall j :: 0 <= j < |parts| ==> c !in parts[j]
    ensures forall k :: 0 <= k < |KeepStripped(parts)| ==> c !in KeepStripped(parts)[k]
  {
    if parts != [] {
      KeepStrippedAvoids(parts[1..], c);
      if c in Strip(parts[0]) { StripKeepsCharacters(parts[0], c); }
    }
  }

  lemma {:induction false} KeepStrippedAppend(a: seq<string>, b: seq<string>)
    ensures KeepStripped(a + b) == KeepStripped(a) + KeepStripped(b)
  {
    if a != [] {
      assert (a + b)[0] == a[0] && (a + b)[1..] == a[1..] + b;
      KeepStrippedAppend(a[1..], b);
    } else {
      assert a + b == b;
    }
  }

  /** `[p.strip() for p in s.split(sep) if p.strip()]` */
  function SplitStrip(s: string, sep: char): (r: seq<string>)
    ensures forall k :: 0 <= k < |r| ==> r[k] != [] && IsTrimmed(r[k]) && sep !in r[k]
  {
    KeepStrippedAvoids(Split(s, sep), sep);
    KeepStripped(Split(s, sep))
  }

  lemma {:induction false} SplitWithoutSeparator(s: string, sep: char)
    requires sep !in s
    ensures Split(s, sep) == [s]
  {
    if s != [] {
      SplitWithoutSeparator(s[1..], sep);
    }
  }

  /** A piece without a separator contributes its stripped self, or nothing if blank. */
  lemma SplitStripSegment(seg: string, sep: char)
    requires sep !in seg
    ensures SplitStrip(seg, sep) == if Strip(seg) == "" then [] else [Strip(seg)]
  {
    assert Split(seg, sep) == [seg] by { SplitWithoutSeparator(seg, sep); }
    assert KeepStripped([seg]) == (if Strip(seg) == "" then [] else [Strip(seg)]) + KeepStripped([]);
  }

  /** The entries before a separator come first, then those after it, in order. */
  lemma SplitStripAround(a: string, b: string, sep: char)
    ensures SplitStrip(a + [sep] + b, sep) == SplitStrip(a, sep) + SplitStrip(b, sep)
  {
    SplitAround(a, b, sep);
    KeepStrippedAppend(Split(a, sep), Split(b, sep));
  }

  function Min(a: int, b: int): int { if a <= b then a else b }

  /** `seq[:n]` */
  function Take<T>(s: seq<T>, n: nat): (r: seq<T>)
    ensures |r| == Min(|s|, n)
    ensures r <= s
  {
    if |s| <= n then s else s[..n]
  }

  /** `c.lower()` restricted to ASCII. */
  function LowerChar(c: char): char {
    if 'A' <= c <= 'Z' then (c as int + 32) as char else c
  }

  /** `s.lower()` restricted to ASCII. */
  function Lower(s: string): (r: string)
    ensures |r| == |s|
    ensures forall i :: 0 <= i < |s| ==> !('A' <= r[i] <= 'Z')
    ensures forall i :: 0 <= i < |s| && !('A' <= s[i] <= 'Z') ==> r[i] == s[i]
    ensures forall i :: 0 <= i < |s| && 'A' <= s[i] <= 'Z' ==> r[i] as int == s[i] as int + 32
  {
    seq(|s|, i requires 0 <= i < |s| => LowerChar(s[i]))
  }

  /** `needle` occurs in `hay` starting at offset `i`. */
  ghost predicate OccursAt(needle: string, hay: string, i: int) {
    0 <= i && i + |needle| <= |hay| && hay[i..i + |needle|] == needle
  }

  /** Python's `needle in hay` on strings. */
  function Contains(needle: string, hay: string): (b: bool)
    ensures b <==> exists i :: OccursAt(needle, hay, i)
  {
    if needle <= hay then
      assert OccursAt(needle, hay, 0);
      true
    else if hay == [] then false
    else
      var b := Contains(needle, hay[1..]);
      assert b ==> exists i :: OccursAt(needle, hay, i) by {
        if b {
          var i :| OccursAt(needle, hay[1..], i);
          assert hay[1..][i..i + |needle|] == hay[i + 1..i + 1 + |needle|];
          assert OccursAt(needle, hay, i + 1);
        }
      }
      assert (exists i :: OccursAt(needle, hay, i)) ==> b by {
        if i :| OccursAt(needle, hay, i) {
          assert i != 0;
          assert hay[1..][i - 1..i - 1 + |needle|] == hay[i..i + |needle|];
          assert OccursAt(needle, hay[1..], i - 1);
        }
      }
      b
  }

  /** A needle with a character the haystack lacks does not occur in it. */
  lemma MissingCharacter(needle: string, hay: string, c: char)
    requires c in needle && c !in hay
    ensures !Contains(needle, hay)
  {
  }

  /** A string occurs in itself. */
  lemma ContainsSelf(s: string)
    ensures Contains(s, s)
  {
    assert OccursAt(s, s, 0);
  }

  /** The index of the first key that occurs in `hay`, if any: the outcome of a
      loop over `keys` that returns on the first `key in hay`. */
  function FirstContained(keys: seq<string>, hay: string): (r: Option<nat>)
    ensures r.Some? ==> r.value < |keys| && Contains(keys[r.value], hay)
    ensures r.Some? ==> forall j :: 0 <= j < r.value ==> !Contains(keys[j], hay)
    ensures r.None? <==> forall j :: 0 <= j < |keys| ==> !Contains(keys[j], hay)
  {
    if keys == [] then None
    else if Contains(keys[0], hay) then Some(0)
    else match FirstContained(keys[1..], hay)
      case None => None
      case Some(i) => Some(i + 1)
  }
}
