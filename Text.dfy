/**
 * String operations of the two host languages, written out over `string` (= `seq<char>`):
 * Python's `str.strip`, `str.split`, `str.replace`, `str.upper`/`lower`/`capitalize`,
 * `str.join`, JavaScript's `String.prototype.trim` and `.length`.
 * Case mapping covers the ASCII letters only.
 */
module Text {
  import opened Wrappers

  predicate IsPrefix(p: string, s: string) {
    |p| <= |s| && s[..|p|] == p
  }

  predicate IsSuffix(p: string, s: string) {
    |p| <= |s| && s[|s| - |p|..] == p
  }

  /** `p` occurs in `s` starting at index `i`. */
  predicate OccursAt(s: string, p: string, i: int) {
    0 <= i && i + |p| <= |s| && s[i..i + |p|] == p
  }

  /** Python's `p in s` for strings. */
  predicate Contains(s: string, p: string) {
    exists i | 0 <= i <= |s| - |p| :: OccursAt(s, p, i)
  }

  lemma OccursShift(s: string, p: string)
    requires |s| > 0
    ensures forall j {:trigger OccursAt(s, p, j)} :: 1 <= j ==> (OccursAt(s, p, j) <==> OccursAt(s[1..], p, j - 1))
    ensures forall j {:trigger OccursAt(s[1..], p, j)} :: 0 <= j ==> (OccursAt(s, p, j + 1) <==> OccursAt(s[1..], p, j))
  {
    forall j | 0 <= j
      ensures OccursAt(s, p, j + 1) <==> OccursAt(s[1..], p, j)
    {
      if j + 1 + |p| <= |s| {
        assert s[1..][j..j + |p|] == s[j + 1..j + 1 + |p|];
      }
    }
  }

  lemma ContainsTail(s: string, p: string)
    requires Contains(s, p) && !IsPrefix(p, s)
    ensures |s| > 0 && Contains(s[1..], p)
  {
    var i :| 0 <= i <= |s| - |p| && OccursAt(s, p, i);
    assert s[0..|p|] == s[..|p|];
    assert i != 0;
    OccursShift(s, p);
    assert OccursAt(s[1..], p, i - 1);
  }

  /** The index of the first occurrence of `p` in `s` (Python's `s.find(p)` when found). */
  function FirstIndex(s: string, p: string): (k: nat)
    requires Contains(s, p)
    ensures OccursAt(s, p, k)
    ensures forall j :: 0 <= j < k ==> !OccursAt(s, p, j)
    decreases |s|
  {
    if IsPrefix(p, s) then assert s[0..|p|] == s[..|p|]; 0
    else
      ContainsTail(s, p);
      OccursShift(s, p);
      1 + FirstIndex(s[1..], p)
  }

  /** Python's `str.isspace` for one character. */
  predicate IsPySpace(c: char) {
    || c == ' ' || ('\t' <= c <= '\r') || ('\U{1C}' <= c <= '\U{1F}')
    || c == '\U{85}' || c == '\U{A0}' || c == '\U{1680}' || ('\U{2000}' <= c <= '\U{200A}')
    || c == '\U{2028}' || c == '\U{2029}' || c == '\U{202F}' || c == '\U{205F}' || c == '\U{3000}'
  }

  /** The characters JavaScript's `trim` removes (WhiteSpace and LineTerminator). */
  predicate IsJsSpace(c: char) {
    || c == ' ' || ('\t' <= c <= '\r') || c == '\U{A0}' || c == '\U{1680}'
    || ('\U{2000}' <= c <= '\U{200A}') || c == '\U{2028}' || c == '\U{2029}'
    || c == '\U{202F}' || c == '\U{205F}' || c == '\U{3000}' || c == '\U{FEFF}'
  }

  function DropLeading(s: string, sp: char -> bool): (r: string)
    ensures IsSuffix(r, s)
    ensures r == [] || !sp(r[0])
    ensures forall k :: 0 <= k < |s| - |r| ==> sp(s[k])
    decreases |s|
  {
    if |s| > 0 && sp(s[0]) then DropLeading(s[1..], sp) else s
  }

  function DropTrailing(s: string, sp: char -> bool): (r: string)
    ensures IsPrefix(r, s)
    ensures r == [] || !sp(r[|r| - 1])
    ensures forall k :: |r| <= k < |s| ==> sp(s[k])
    decreases |s|
  {
    if |s| > 0 && sp(s[|s| - 1]) then DropTrailing(s[..|s| - 1], sp) else s
  }

  /** Removes the characters satisfying `sp` from both ends. */
  function Strip(s: string, sp: char -> bool): (r: string)
    ensures r == [] || (!sp(r[0]) && !sp(r[|r| - 1]))
    ensures (r == []) <==> (forall k :: 0 <= k < |s| ==> sp(s[k]))
  {
    var t := DropLeading(s, sp);
    var r := DropTrailing(t, sp);
    assert r == [] ==> forall k :: 0 <= k < |s| ==> sp(s[k]) by {
      if r == [] {
        forall k | 0 <= k < |s| ensures sp(s[k]) {
        }
      }
    }
    assert (forall k :: 0 <= k < |s| ==> sp(s[k])) ==> t == [] by {
      if t != [] {
        assert t[0] == s[|s| - |t|];
      }
    }
    r
  }

  /** Python's `str.strip()`. */
  function PyStrip(s: string): string {
    Strip(s, IsPySpace)
  }

  /** JavaScript's `String.prototype.trim()`. */
  function JsTrim(s: string): string {
    Strip(s, IsJsSpace)
  }

  /** Every character left by stripping was in the original string. */
  lemma StripKeepsCharacters(s: string, sp: char -> bool)
    ensures forall i :: 0 <= i < |Strip(s, sp)| ==> Strip(s, sp)[i] in s
  {
    var t := DropLeading(s, sp);
    var r := DropTrailing(t, sp);
    forall i | 0 <= i < |r| ensures r[i] in s {
      assert r[i] == t[i];
      assert t[i] == s[|s| - |t| + i];
    }
  }

  /** Stripping a padded string gives back the text between the padding. */
  lemma StripPadded(w1: string, x: string, w2: string, sp: char -> bool)
    requires forall k :: 0 <= k < |w1| ==> sp(w1[k])
    requires forall k :: 0 <= k < |w2| ==> sp(w2[k])
    requires x != [] && !sp(x[0]) && !sp(x[|x| - 1])
    ensures Strip(w1 + x + w2, sp) == x
  {
    var s := w1 + x + w2;
    assert s[|w1|] == x[0];
    assert forall k :: 0 <= k < |w1| ==> s[k] == w1[k];
    var t := DropLeading(s, sp);
    assert t != [] ==> t[0] == s[|s| - |t|];
    assert |t| == |x| + |w2|;
    assert t == x + w2;
    assert t[|x| - 1] == x[|x| - 1];
    assert forall k :: |x| <= k < |t| ==> t[k] == w2[k - |x|];
    var r := DropTrailing(t, sp);
    assert r != [] ==> r[|r| - 1] == t[|r| - 1];
    assert |r| == |x|;
    assert r == t[..|x|];
  }

  /** Python's `s.split(d)` for a one-character separator. */
  function Split(s: string, d: char): (r: seq<string>)
    ensures |r| >= 1
    ensures forall i :: 0 <= i < |r| ==> d !in r[i]
    decreases |s|
  {
    if |s| == 0 then [""]
    else
      var rest := Split(s[1..], d);
      if s[0] == d then [""] + rest else [[s[0]] + rest[0]] + rest[1..]
  }

  /** Python's `sep.join(parts)`. */
  function Join(parts: seq<string>, sep: string): string {
    if |parts| == 0 then ""
    else if |parts| == 1 then parts[0]
    else parts[0] + sep + Join(parts[1..], sep)
  }

  /** Joining the pieces of a split with the separator gives back the string. */
  lemma {:induction false} JoinSplit(s: string, d: char)
    ensures Join(Split(s, d), [d]) == s
    decreases |s|
  {
    if |s| > 0 {
      var rest := Split(s[1..], d);
      JoinSplit(s[1..], d);
      if s[0] != d && |rest| > 1 {
        assert Join(rest, [d]) == rest[0] + [d] + Join(rest[1..], [d]);
        assert ([[s[0]] + rest[0]] + rest[1..])[1..] == rest[1..];
      }
    }
  }

  /** The pieces of each part, one part after another. */
  function SplitEach(parts: seq<string>, d: char): seq<string> {
    if |parts| == 0 then [] else Split(parts[0], d) + SplitEach(parts[1..], d)
  }

  lemma {:induction false} SplitEachConcat(a: seq<string>, b: seq<string>, d: char)
    ensures SplitEach(a + b, d) == SplitEach(a, d) + SplitEach(b, d)
    decreases |a|
  {
    if |a| > 0 {
      assert (a + b)[1..] == a[1..] + b;
      SplitEachConcat(a[1..], b, d);
    } else {
      assert a + b == b;
    }
  }

  lemma {:induction false} SplitEachPlain(parts: seq<string>, d: char)
    requires forall i :: 0 <= i < |parts| ==> d !in parts[i]
    ensures SplitEach(parts, d) == parts
    decreases |parts|
  {
    if |parts| > 0 {
      SplitNoSeparator(parts[0], d);
      SplitEachPlain(parts[1..], d);
      assert [parts[0]] + parts[1..] == parts;
    }
  }

  /** The pieces of a part in the middle come between those of the parts around it. */
  lemma SplitEachMiddle(front: seq<string>, part: string, back: seq<string>, d: char)
    ensures SplitEach(front + [part] + back, d) == SplitEach(front, d) + Split(part, d) + SplitEach(back, d)
  {
    SplitEachConcat(front + [part], back, d);
    SplitEachConcat(front, [part], d);
    assert [part][1..] == [];
  }

  /** Splitting what was joined: the pieces of each part in turn. */
  lemma {:induction false} SplitJoin(parts: seq<string>, d: char)
    requires |parts| > 0
    ensures Split(Join(parts, [d]), d) == SplitEach(parts, d)
    decreases |parts|
  {
    if |parts| == 1 {
      assert SplitEach(parts, d) == Split(parts[0], d) + SplitEach(parts[1..], d);
    } else {
      SplitAround(parts[0], d, Join(parts[1..], [d]));
      SplitJoin(parts[1..], d);
    }
  }

  /** Joining parts that hold no separator and splitting again gives the parts back. */
  lemma SplitJoinPlain(parts: seq<string>, d: char)
    requires |parts| > 0
    requires forall i :: 0 <= i < |parts| ==> d !in parts[i]
    ensures Split(Join(parts, [d]), d) == parts
  {
    SplitJoin(parts, d);
    SplitEachPlain(parts, d);
  }

  lemma {:induction false} JoinSnoc(parts: seq<string>, x: string, sep: string)
    requires |parts| > 0
    ensures Join(parts + [x], sep) == Join(parts, sep) + sep + x
    decreases |parts|
  {
    if |parts| > 1 {
      assert (parts + [x])[1..] == parts[1..] + [x];
      JoinSnoc(parts[1..], x, sep);
    } else {
      assert (parts + [x])[1..] == [x];
    }
  }

  /** A join of two or more pieces starts with the first piece's first character and ends with the last piece's last. */
  lemma JoinEnds(parts: seq<string>, sep: string)
    requires |parts| >= 2 && parts[0] != [] && parts[|parts| - 1] != []
    ensures var x := Join(parts, sep); var z := parts[|parts| - 1];
      |x| > 0 && x[0] == parts[0][0] && x[|x| - 1] == z[|z| - 1]
  {
    var n := |parts|;
    assert parts == parts[..n - 1] + [parts[n - 1]];
    JoinSnoc(parts[..n - 1], parts[n - 1], sep);
  }

  /**
   * Stripping a join framed by newlines removes exactly the two newlines when the first
   * piece starts and the last piece ends with a visible character.
   */
  lemma StripFramedJoin(parts: seq<string>)
    requires |parts| >= 2 && parts[0] != [] && parts[|parts| - 1] != []
    requires !IsPySpace(parts[0][0]) && !IsPySpace(parts[|parts| - 1][|parts[|parts| - 1]| - 1])
    ensures PyStrip("\n" + Join(parts, "\n") + "\n") == Join(parts, "\n")
  {
    JoinEnds(parts, "\n");
    StripPadded("\n", Join(parts, "\n"), "\n", IsPySpace);
  }

  /** Splitting distributes over a separator: the pieces of `x`, then those of `y`. */
  lemma {:induction false} SplitAround(x: string, d: char, y: string)
    ensures Split(x + [d] + y, d) == Split(x, d) + Split(y, d)
    decreases |x|
  {
    var s := x + [d] + y;
    if |x| == 0 {
      assert s[1..] == y;
    } else {
      assert s[1..] == x[1..] + [d] + y;
      SplitAround(x[1..], d, y);
    }
  }

  lemma {:induction false} SplitNoSeparator(s: string, d: char)
    requires d !in s
    ensures Split(s, d) == [s]
    decreases |s|
  {
    if |s| > 0 {
      SplitNoSeparator(s[1..], d);
      assert [s[0]] + s[1..] == s;
    }
  }

  /** Python's `s.replace(pat, rep)`: left to right, non-overlapping. */
  function ReplaceAll(s: string, pat: string, rep: string): string
    requires |pat| > 0
    decreases |s|
  {
    if |s| == 0 then ""
    else if IsPrefix(pat, s) then rep + ReplaceAll(s[|pat|..], pat, rep)
    else [s[0]] + ReplaceAll(s[1..], pat, rep)
  }

  /** Replacing a single character works piece by piece. */
  lemma {:induction false} ReplaceCharConcat(a: string, b: string, c: char, v: string)
    ensures ReplaceAll(a + b, [c], v) == ReplaceAll(a, [c], v) + ReplaceAll(b, [c], v)
    decreases |a|
  {
    if |a| > 0 {
      assert (a + b)[1..] == a[1..] + b;
      assert IsPrefix([c], a + b) == IsPrefix([c], a);
      ReplaceCharConcat(a[1..], b, c, v);
    } else {
      assert a + b == b;
    }
  }

  /** A character found neither in the text nor in the replacement is not in the result. */
  lemma {:induction false} ReplaceKeepsAbsent(s: string, pat: string, rep: string, x: char)
    requires |pat| > 0 && x !in s && x !in rep
    ensures x !in ReplaceAll(s, pat, rep)
    decreases |s|
  {
    if |s| > 0 {
      if IsPrefix(pat, s) {
        assert x !in s[|pat|..] by {
          forall k | |pat| <= k < |s| ensures s[k] != x {
            assert s[k] in s;
          }
        }
        ReplaceKeepsAbsent(s[|pat|..], pat, rep, x);
      } else {
        assert x !in s[1..];
        ReplaceKeepsAbsent(s[1..], pat, rep, x);
      }
    }
  }

  /** Replacing a character by text without it leaves none of it behind. */
  lemma {:induction false} ReplaceRemovesChar(s: string, c: char, rep: string)
    requires c !in rep
    ensures c !in ReplaceAll(s, [c], rep)
    decreases |s|
  {
    if |s| > 0 {
      if IsPrefix([c], s) {
        ReplaceRemovesChar(s[1..], c, rep);
      } else {
        assert s[0] != c by {
          assert s[..1] == [s[0]];
        }
        ReplaceRemovesChar(s[1..], c, rep);
      }
    }
  }

  function UpperChar(c: char): char {
    if 'a' <= c <= 'z' then (c as int - 32) as char else c
  }

  function LowerChar(c: char): char {
    if 'A' <= c <= 'Z' then (c as int + 32) as char else c
  }

  /** Python's `str.upper()` and JavaScript's `toUpperCase()`, on ASCII letters. */
  function Upper(s: string): (r: string)
    ensures |r| == |s|
  {
    seq(|s|, i requires 0 <= i < |s| => UpperChar(s[i]))
  }

  /** Python's `str.lower()` and JavaScript's `toLowerCase()`, on ASCII letters. */
  function Lower(s: string): (r: string)
    ensures |r| == |s|
  {
    seq(|s|, i requires 0 <= i < |s| => LowerChar(s[i]))
  }

  /** Python's `str.capitalize()`: the first letter upper case, all the others lower case. */
  function PyCapitalize(s: string): (r: string)
    ensures |r| == |s|
  {
    if |s| == 0 then "" else [UpperChar(s[0])] + Lower(s[1..])
  }

  /** JavaScript's `s.charAt(0).toUpperCase() + s.slice(1)`: the rest is left as it is. */
  function JsCapitalize(s: string): (r: string)
    ensures |r| == |s|
  {
    if |s| == 0 then "" else [UpperChar(s[0])] + s[1..]
  }

  function Word(t: string): (r: string)
    ensures IsPrefix(r, t)
    ensures forall k :: 0 <= k < |r| ==> !IsPySpace(r[k])
    ensures |r| == |t| || IsPySpace(t[|r|])
  {
    if |t| == 0 || IsPySpace(t[0]) then "" else [t[0]] + Word(t[1..])
  }

  /** Python's `s.split()[0]`; `None` where that raises `IndexError` (no word at all). */
  function FirstWord(s: string): (r: Option<string>)
    ensures r.None? <==> forall k :: 0 <= k < |s| ==> IsPySpace(s[k])
    ensures r.Some? ==> r.value != [] && forall k :: 0 <= k < |r.value| ==> !IsPySpace(r.value[k])
  {
    var t := DropLeading(s, IsPySpace);
    assert t == [] <==> forall k :: 0 <= k < |s| ==> IsPySpace(s[k]) by {
      if t != [] {
        assert t[0] == s[|s| - |t|];
      }
    }
    if t == [] then None else Some(Word(t))
  }

  function DigitChar(d: nat): char
    requires d < 10
  {
    "0123456789"[d]
  }

  predicate IsAsciiDigit(c: char) {
    '0' <= c <= '9'
  }

  /** The decimal rendering of a number, as template literals print it. */
  function NatToString(n: nat): (r: string)
    ensures |r| >= 1
    ensures forall i :: 0 <= i < |r| ==> IsAsciiDigit(r[i])
  {
    if n < 10 then [DigitChar(n)] else NatToString(n / 10) + [DigitChar(n % 10)]
  }

  /** The number a string of decimal digits denotes. */
  function DecimalValue(s: string): nat
    requires forall i :: 0 <= i < |s| ==> IsAsciiDigit(s[i])
  {
    if |s| == 0 then 0
    else
      assert IsAsciiDigit(s[|s| - 1]);
      DecimalValue(s[..|s| - 1]) * 10 + (s[|s| - 1] as int - '0' as int)
  }

  /** The rendering is faithful: reading the digits back gives the number. */
  lemma {:induction false} DecimalRoundTrip(n: nat)
    ensures DecimalValue(NatToString(n)) == n
  {
    if n >= 10 {
      DecimalRoundTrip(n / 10);
      var s := NatToString(n);
      assert s[..|s| - 1] == NatToString(n / 10);
    }
  }

  /** JavaScript's `.length`: characters outside the Basic Multilingual Plane count twice. */
  function Utf16Length(s: string): (r: nat)
    ensures |s| <= r <= 2 * |s|
  {
    if |s| == 0 then 0 else (if s[0] as int > 0xFFFF then 2 else 1) + Utf16Length(s[1..])
  }

  /** Every character of each part appears in the joined string. */
  lemma {:induction false} JoinKeepsPart(parts: seq<string>, sep: string, i: nat, k: nat)
    requires i < |parts| && k < |parts[i]|
    ensures parts[i][k] in Join(parts, sep)
    decreases |parts|
  {
    if i == 0 {
      if |parts| > 1 {
        assert Join(parts, sep) == parts[0] + (sep + Join(parts[1..], sep));
        assert Join(parts, sep)[k] == parts[0][k];
      }
    } else {
      JoinKeepsPart(parts[1..], sep, i - 1, k);
      assert parts[1..][i - 1] == parts[i];
      var rest := Join(parts[1..], sep);
      var m :| 0 <= m < |rest| && rest[m] == parts[i][k];
      assert Join(parts, sep) == (parts[0] + sep) + rest;
      assert Join(parts, sep)[|parts[0] + sep| + m] == rest[m];
    }
  }

  /** A property of every character of the parts and of the separator holds throughout the join. */
  lemma {:induction false} JoinCharacters(parts: seq<string>, sep: string, p: char -> bool)
    requires forall k :: 0 <= k < |sep| ==> p(sep[k])
    requires forall i, k :: 0 <= i < |parts| && 0 <= k < |parts[i]| ==> p(parts[i][k])
    ensures forall k :: 0 <= k < |Join(parts, sep)| ==> p(Join(parts, sep)[k])
    decreases |parts|
  {
    if |parts| > 1 {
      JoinCharacters(parts[1..], sep, p);
      var front, rest := parts[0] + sep, Join(parts[1..], sep);
      assert Join(parts, sep) == front + rest;
      assert forall k :: 0 <= k < |front| ==> p(front[k]) by {
        forall k | 0 <= k < |front| ensures p(front[k]) {
          if k < |parts[0]| {
            assert front[k] == parts[0][k];
          } else {
            assert front[k] == sep[k - |parts[0]|];
          }
        }
      }
      forall k | 0 <= k < |front + rest| ensures p((front + rest)[k]) {
        if k >= |front| {
          assert (front + rest)[k] == rest[k - |front|];
        }
      }
    }
  }

  /** Concatenation regrouped; a step the solver is slow to find inside larger contexts. */
  lemma AppendAssoc<T>(a: seq<T>, b: seq<T>, c: seq<T>)
    ensures (a + b) + c == a + (b + c)
  {
  }
}
