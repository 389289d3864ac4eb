/**
 * The deterministic parts of the contract generator agent (contractagi.py): the sanitiser
 * applied to model output, the contract text template, the decisions the PDF writer makes
 * for each line, and the request checks of the generation endpoint.
 * The language model, the agent, FPDF drawing and the GoFile upload are inputs or left out.
 */
module ContractAgi {
  import opened Wrappers
  import opened Text

  // ---------------------------------------------------------------------------------------
  // Step 1 of the sanitiser: `re.sub(r'<think>.*?</think>', '', text, flags=re.DOTALL)`

  const Open: string := "<think>"
  const Close: string := "</think>"

  /**
   * One left-to-right pass of the non-greedy substitution: at each position where `<think>`
   * starts and a `</think>` follows, everything up to the first such `</think>` goes.
   */
  function RemoveThink(s: string): string
    decreases |s|
  {
    if |s| == 0 then ""
    else if IsPrefix(Open, s) && Contains(s[|Open|..], Close) then
      RemoveThink(s[|Open| + FirstIndex(s[|Open|..], Close) + |Close|..])
    else [s[0]] + RemoveThink(s[1..])
  }

  /** A pattern whose first character does not occur again in it cannot overlap itself. */
  predicate HeadUnique(w: string) {
    |w| > 0 && forall m :: 1 <= m < |w| ==> w[m] != w[0]
  }

  /** No occurrence of such a pattern can start inside `a` when `a` holds none of its own. */
  lemma NoStraddle(a: string, w: string, r: string, i: nat)
    requires HeadUnique(w) && !Contains(a, w) && i < |a|
    ensures !OccursAt(a + w + r, w, i)
  {
    var s := a + w + r;
    if i + |w| <= |a| {
      assert s[i..i + |w|] == a[i..i + |w|];
      assert !OccursAt(a, w, i);
    } else {
      var m := |a| - i;
      assert 1 <= m < |w|;
      assert s[i + m] == w[0];
      assert s[i + m] != w[m];
    }
  }

  lemma NotContainsTail(p: string, w: string)
    requires |p| > 0 && !Contains(p, w)
    ensures !Contains(p[1..], w)
  {
    OccursShift(p, w);
  }

  lemma ContainsInSuffix(s: string, w: string, n: nat)
    requires n <= |s| && Contains(s[n..], w)
    ensures Contains(s, w)
  {
    var i :| 0 <= i <= |s[n..]| - |w| && OccursAt(s[n..], w, i);
    assert s[n..][i..i + |w|] == s[n + i..n + i + |w|];
    assert OccursAt(s, w, n + i);
  }

  /** Without any `</think>` there is nothing to remove. */
  lemma {:induction false} RemoveThinkNoClose(s: string)
    requires !Contains(s, Close)
    ensures RemoveThink(s) == s
    decreases |s|
  {
    if |s| > 0 {
      if |Open| <= |s| && Contains(s[|Open|..], Close) {
        ContainsInSuffix(s, Close, |Open|);
      }
      NotContainsTail(s, Close);
      RemoveThinkNoClose(s[1..]);
      assert [s[0]] + s[1..] == s;
    }
  }

  /** A block at the very start goes up to and including its first `</think>`. */
  lemma RemoveThinkLeadingBlock(body: string, rest: string)
    requires !Contains(body, Close)
    ensures RemoveThink(Open + body + Close + rest) == RemoveThink(rest)
  {
    var s := Open + body + Close + rest;
    var t := s[|Open|..];
    assert t == body + Close + rest;
    assert IsPrefix(Open, s) by {
      assert s[..|Open|] == Open;
    }
    assert OccursAt(t, Close, |body|) by {
      assert t[|body|..|body| + |Close|] == Close;
    }
    forall j | 0 <= j < |body| ensures !OccursAt(t, Close, j) {
      NoStraddle(body, Close, rest, j);
    }
    var k := FirstIndex(t, Close);
    assert k == |body|;
    assert s[|Open| + k + |Close|..] == rest;
  }

  /** Text that starts with a non-empty piece holding no `<think>`, then a `<think>`, does not start with one. */
  lemma NoBlockAtStart(p: string, u: string)
    requires |p| > 0 && !Contains(p, Open) && IsPrefix(Open, u)
    ensures !IsPrefix(Open, p + u) && (p + u)[0] == p[0]
  {
    var v := u[|Open|..];
    assert u == Open + v;
    assert p + u == p + Open + v;
    NoStraddle(p, Open, v, 0);
    assert (p + u)[0..|Open|] == (p + u)[..|Open|];
  }

  /**
   * Text holding no `<think>` that is followed by a `<think>` is copied as it is, whatever
   * the scan then does from that `<think>` on.
   */
  lemma {:induction false} RemoveThinkPrefix(p: string, u: string)
    requires !Contains(p, Open) && IsPrefix(Open, u)
    ensures RemoveThink(p + u) == p + RemoveThink(u)
    decreases |p|
  {
    if |p| == 0 {
      assert p + u == u;
    } else {
      NoBlockAtStart(p, u);
      assert (p + u)[1..] == p[1..] + u;
      NotContainsTail(p, Open);
      RemoveThinkPrefix(p[1..], u);
      assert RemoveThink(p + u) == [p[0]] + RemoveThink(p[1..] + u);
      assert [p[0]] + p[1..] == p;
      AppendAssoc([p[0]], p[1..], RemoveThink(u));
    }
  }

  /**
   * A block is removed: text before it that holds no `<think>` is kept, the block from
   * `<think>` through the first `</think>` goes, and the scan carries on after it.
   */
  lemma RemoveThinkBlock(p: string, body: string, rest: string)
    requires !Contains(p, Open) && !Contains(body, Close)
    ensures RemoveThink(p + Open + body + Close + rest) == p + RemoveThink(rest)
  {
    var u := Open + body + Close + rest;
    assert p + Open + body + Close + rest == p + u;
    assert IsPrefix(Open, u) by {
      assert u[..|Open|] == Open;
    }
    RemoveThinkLeadingBlock(body, rest);
    RemoveThinkPrefix(p, u);
  }

  // ---------------------------------------------------------------------------------------
  // Step 2: `re.sub(r'\n{3,}', '\n\n', text)`

  /** The length of the run of newlines at the start of `s`. */
  function NewlineRun(s: string): (k: nat)
    ensures k <= |s|
    ensures forall i :: 0 <= i < k ==> s[i] == '\n'
    ensures k == |s| || s[k] != '\n'
  {
    if |s| > 0 && s[0] == '\n' then 1 + NewlineRun(s[1..]) else 0
  }

  /** Every run of three or more newlines becomes exactly two; shorter runs stay. */
  function CollapseNewlines(s: string): string
    decreases |s|
  {
    if |s| == 0 then ""
    else if s[0] == '\n' then
      var k := NewlineRun(s);
      (if k >= 3 then "\n\n" else s[..k]) + CollapseNewlines(s[k..])
    else [s[0]] + CollapseNewlines(s[1..])
  }

  predicate TripleNewlineAt(s: string, i: int) {
    0 <= i && i + 2 < |s| && s[i] == '\n' && s[i + 1] == '\n' && s[i + 2] == '\n'
  }

  predicate NoTripleNewline(s: string) {
    forall i | 0 <= i < |s| :: !TripleNewlineAt(s, i)
  }

  lemma {:induction false} CollapseHead(s: string)
    requires |s| > 0 && s[0] != '\n'
    ensures CollapseNewlines(s) == [s[0]] + CollapseNewlines(s[1..])
  {
  }

  /** Right after the collapse step no run of three newlines is left. */
  lemma {:induction false} CollapseLeavesNoTriple(s: string)
    ensures NoTripleNewline(CollapseNewlines(s))
    decreases |s|
  {
    if |s| > 0 {
      var c := CollapseNewlines(s);
      if s[0] == '\n' {
        var k := NewlineRun(s);
        var head: string := if k >= 3 then "\n\n" else s[..k];
        var tail := CollapseNewlines(s[k..]);
        CollapseLeavesNoTriple(s[k..]);
        assert c == head + tail;
        assert |head| <= 2;
        assert tail == [] || tail[0] != '\n' by {
          if k < |s| {
            CollapseHead(s[k..]);
          }
        }
        forall i | 0 <= i < |c| ensures !TripleNewlineAt(c, i) {
          if i >= |head| {
            assert !TripleNewlineAt(tail, i - |head|);
          } else if |head| < |c| {
            assert c[|head|] == tail[0];
          }
        }
      } else {
        var tail := CollapseNewlines(s[1..]);
        CollapseLeavesNoTriple(s[1..]);
        assert c == [s[0]] + tail;
        forall i | 0 <= i < |c| ensures !TripleNewlineAt(c, i) {
          if i >= 1 {
            assert !TripleNewlineAt(tail, i - 1);
          }
        }
      }
    }
  }

  /** A suffix of text without a run of three newlines has none either. */
  lemma NoTripleSuffix(s: string, k: nat)
    requires NoTripleNewline(s) && k <= |s|
    ensures NoTripleNewline(s[k..])
  {
    forall i | 0 <= i < |s[k..]| ensures !TripleNewlineAt(s[k..], i) {
      assert !TripleNewlineAt(s, i + k);
    }
  }

  /** Text without a run of three newlines starts with at most two. */
  lemma ShortRunAtStart(s: string)
    requires NoTripleNewline(s) && |s| > 0
    ensures NewlineRun(s) < 3
  {
    assert !TripleNewlineAt(s, 0);
  }

  /** A run of one or two newlines is copied as it is. */
  lemma CollapseShortRun(s: string)
    requires |s| > 0 && s[0] == '\n' && NewlineRun(s) < 3
    ensures CollapseNewlines(s) == s[..NewlineRun(s)] + CollapseNewlines(s[NewlineRun(s)..])
  {
  }

  /** Text that has no run of three newlines is left unchanged, so the step is idempotent. */
  lemma {:induction false} CollapseKeepsShortRuns(s: string)
    requires NoTripleNewline(s)
    ensures CollapseNewlines(s) == s
    decreases |s|
  {
    if |s| > 0 {
      if s[0] == '\n' {
        var k := NewlineRun(s);
        ShortRunAtStart(s);
        NoTripleSuffix(s, k);
        CollapseShortRun(s);
        CollapseKeepsShortRuns(s[k..]);
        assert s[..k] + s[k..] == s;
      } else {
        NoTripleSuffix(s, 1);
        CollapseHead(s);
        CollapseKeepsShortRuns(s[1..]);
        assert [s[0]] + s[1..] == s;
      }
    }
  }

  lemma CollapseIdempotent(s: string)
    ensures CollapseNewlines(CollapseNewlines(s)) == CollapseNewlines(s)
  {
    CollapseLeavesNoTriple(s);
    CollapseKeepsShortRuns(CollapseNewlines(s));
  }

  // ---------------------------------------------------------------------------------------
  // Step 3: the replacement table, applied with `str.replace` in the table's order

  /** Curly quotes, en/em dash, rupee sign, ellipsis, bullet and no-break space. */
  const Replacements: seq<(char, string)> := [
    ('\U{2019}', "'"), ('\U{2018}', "'"), ('\U{201C}', "\""), ('\U{201D}', "\""),
    ('\U{2013}', "-"), ('\U{2014}', "-"), ('\U{20B9}', "Rs."), ('\U{2026}', "..."),
    ('\U{2022}', "-"), ('\U{A0}', " ")
  ]

  /** What the loop computes: each entry's `replace` applied to the previous result. */
  function ReplaceChain(s: string, table: seq<(char, string)>): string {
    if |table| == 0 then s
    else ReplaceAll(ReplaceChain(s, table[..|table| - 1]), [table[|table| - 1].0], table[|table| - 1].1)
  }

  /** The replacement of one character: the first entry for it, or the character itself. */
  function Lookup(table: seq<(char, string)>, c: char): string {
    if |table| == 0 then [c]
    else if table[0].0 == c then table[0].1
    else Lookup(table[1..], c)
  }

  /** The reference meaning of the table: every character replaced on its own. */
  function MapChars(s: string, table: seq<(char, string)>): string {
    if |s| == 0 then "" else Lookup(table, s[0]) + MapChars(s[1..], table)
  }

  predicate IsKey(table: seq<(char, string)>, c: char) {
    exists i :: 0 <= i < |table| && table[i].0 == c
  }

  /** No entry's character is an earlier entry's character or occurs in an earlier output. */
  predicate NonInteracting(table: seq<(char, string)>) {
    forall i, j :: 0 <= j < i < |table| ==> table[i].0 != table[j].0 && table[i].0 !in table[j].1
  }

  lemma {:induction false} ReplaceAbsentChar(u: string, c: char, v: string)
    requires c !in u
    ensures ReplaceAll(u, [c], v) == u
    decreases |u|
  {
    if |u| > 0 {
      assert c !in u[1..];
      ReplaceAbsentChar(u[1..], c, v);
      assert [u[0]] + u[1..] == u;
    }
  }

  lemma IsKeyTail(table: seq<(char, string)>, c: char)
    requires |table| > 0 && table[0].0 != c
    ensures IsKey(table, c) == IsKey(table[1..], c)
  {
    if IsKey(table, c) {
      var i :| 0 <= i < |table| && table[i].0 == c;
      assert table[1..][i - 1].0 == c;
    }
    if IsKey(table[1..], c) {
      var i :| 0 <= i < |table[1..]| && table[1..][i].0 == c;
      assert table[i + 1].0 == c;
    }
  }

  /** A character of the table is replaced by one of the table's outputs; any other is kept. */
  lemma {:induction false} LookupFrom(table: seq<(char, string)>, c: char)
    ensures IsKey(table, c) ==> exists i :: 0 <= i < |table| && Lookup(table, c) == table[i].1
    ensures !IsKey(table, c) ==> Lookup(table, c) == [c]
    decreases |table|
  {
    if |table| > 0 {
      if table[0].0 != c {
        IsKeyTail(table, c);
        LookupFrom(table[1..], c);
        if IsKey(table[1..], c) {
          var i :| 0 <= i < |table[1..]| && Lookup(table[1..], c) == table[1..][i].1;
          assert Lookup(table, c) == table[i + 1].1;
        }
      } else {
        assert table[0].0 == c && Lookup(table, c) == table[0].1;
      }
    }
  }

  lemma {:induction false} LookupAppend(table: seq<(char, string)>, k: char, v: string, c: char)
    ensures Lookup(table + [(k, v)], c) ==
      if IsKey(table, c) then Lookup(table, c) else if c == k then v else [c]
    decreases |table|
  {
    if |table| > 0 {
      assert (table + [(k, v)])[1..] == table[1..] + [(k, v)];
      LookupAppend(table[1..], k, v, c);
      if table[0].0 != c {
        IsKeyTail(table, c);
      } else {
        assert table[0].0 == c;
      }
    }
  }

  lemma {:induction false} ReplaceAfterMap(s: string, table: seq<(char, string)>, k: char, v: string)
    requires !IsKey(table, k)
    requires forall j :: 0 <= j < |table| ==> k !in table[j].1
    ensures ReplaceAll(MapChars(s, table), [k], v) == MapChars(s, table + [(k, v)])
    decreases |s|
  {
    if |s| > 0 {
      var c := s[0];
      ReplaceCharConcat(Lookup(table, c), MapChars(s[1..], table), k, v);
      ReplaceAfterMap(s[1..], table, k, v);
      LookupAppend(table, k, v, c);
      LookupFrom(table, c);
      if IsKey(table, c) {
        var i :| 0 <= i < |table| && Lookup(table, c) == table[i].1;
        ReplaceAbsentChar(Lookup(table, c), k, v);
        assert c != k;
      }
    }
  }

  /** Applying the entries one after another is the same as replacing each character once. */
  lemma {:induction false} ChainIsMap(s: string, table: seq<(char, string)>)
    requires NonInteracting(table)
    ensures ReplaceChain(s, table) == MapChars(s, table)
    decreases |table|
  {
    if |table| == 0 {
      MapCharsEmpty(s);
    } else {
      var n := |table| - 1;
      var front := table[..n];
      assert NonInteracting(front);
      ChainIsMap(s, front);
      assert forall j :: 0 <= j < |front| ==> front[j] == table[j];
      assert forall j :: 0 <= j < |front| ==> table[n].0 !in front[j].1 by {
        forall j | 0 <= j < |front| ensures table[n].0 !in front[j].1 {
          assert front[j] == table[j];
        }
      }
      ReplaceAfterMap(s, front, table[n].0, table[n].1);
      assert front + [(table[n].0, table[n].1)] == table;
    }
  }

  lemma {:induction false} MapCharsEmpty(s: string)
    ensures MapChars(s, []) == s
    decreases |s|
  {
    if |s| > 0 {
      MapCharsEmpty(s[1..]);
      assert [s[0]] + s[1..] == s;
    }
  }

  lemma ReplacementsNonInteracting()
    ensures NonInteracting(Replacements)
  {
  }

  /** No character of the table is left after the mapping. */
  lemma {:induction false} MapCharsRemovesKeys(s: string)
    ensures forall i :: 0 <= i < |MapChars(s, Replacements)| ==> !IsKey(Replacements, MapChars(s, Replacements)[i])
    decreases |s|
  {
    if |s| > 0 {
      MapCharsRemovesKeys(s[1..]);
      var head := Lookup(Replacements, s[0]);
      LookupFrom(Replacements, s[0]);
      assert forall i, j :: 0 <= i < |Replacements| && 0 <= j < |Replacements[i].1| ==> Replacements[i].1[j] as int < 128;
      assert forall i :: 0 <= i < |Replacements| ==> Replacements[i].0 as int >= 160;
      assert forall i :: 0 <= i < |head| ==> !IsKey(Replacements, head[i]);
      var m := MapChars(s, Replacements);
      assert m == head + MapChars(s[1..], Replacements);
      forall i | 0 <= i < |m| ensures !IsKey(Replacements, m[i]) {
        if i >= |head| {
          assert m[i] == MapChars(s[1..], Replacements)[i - |head|];
        }
      }
    }
  }

  // ---------------------------------------------------------------------------------------
  // Step 4: `text.encode('latin-1', 'ignore').decode('latin-1')`

  /** Keeps the characters of code point at most 255, in order; all others are dropped. */
  function Latin1(s: string): (r: string)
    ensures forall i :: 0 <= i < |r| ==> r[i] as int <= 255
    decreases |s|
  {
    if |s| == 0 then ""
    else (if s[0] as int <= 255 then [s[0]] else []) + Latin1(s[1..])
  }

  /** Text that is already Latin-1 passes the filter unchanged. */
  lemma {:induction false} Latin1Keeps(s: string)
    requires forall i :: 0 <= i < |s| ==> s[i] as int <= 255
    ensures Latin1(s) == s
    decreases |s|
  {
    if |s| > 0 {
      Latin1Keeps(s[1..]);
      assert [s[0]] + s[1..] == s;
    }
  }

  lemma {:induction false} Latin1Concat(a: string, b: string)
    ensures Latin1(a + b) == Latin1(a) + Latin1(b)
    decreases |a|
  {
    if |a| > 0 {
      assert (a + b)[1..] == a[1..] + b;
      Latin1Concat(a[1..], b);
    } else {
      assert a + b == b;
    }
  }

  /** Every Latin-1 character is kept as often as it occurs; no other character is. */
  lemma {:induction false} Latin1KeepsCount(s: string, c: char)
    ensures multiset(Latin1(s))[c] == if c as int <= 255 then multiset(s)[c] else 0
    decreases |s|
  {
    if |s| > 0 {
      Latin1KeepsCount(s[1..], c);
      assert s == [s[0]] + s[1..];
    }
  }

  // ---------------------------------------------------------------------------------------
  // The sanitiser as a whole

  /** What `clean_contract_output` returns, written with the reference character mapping. */
  function CleanSpec(s: string): (r: string)
    ensures forall i :: 0 <= i < |r| ==> r[i] as int <= 255
    ensures r == [] || (!IsPySpace(r[0]) && !IsPySpace(r[|r| - 1]))
  {
    var filtered := Latin1(MapChars(CollapseNewlines(RemoveThink(s)), Replacements));
    StripKeepsCharacters(filtered, IsPySpace);
    PyStrip(filtered)
  }

  /** The sanitiser, step by step as the source reassigns `cleaned_text`. */
  method CleanContractOutput(contractText: string) returns (cleaned: string)
    ensures cleaned == CleanSpec(contractText)
  {
    cleaned := RemoveThink(contractText);
    cleaned := CollapseNewlines(cleaned);
    ghost var collapsed := cleaned;
    for i := 0 to |Replacements|
      invariant cleaned == ReplaceChain(collapsed, Replacements[..i])
    {
      assert Replacements[..i + 1][..i] == Replacements[..i];
      cleaned := ReplaceAll(cleaned, [Replacements[i].0], Replacements[i].1);
    }
    assert Replacements[..|Replacements|] == Replacements;
    ReplacementsNonInteracting();
    ChainIsMap(collapsed, Replacements);
    cleaned := Latin1(cleaned);
    cleaned := PyStrip(cleaned);
  }

  /**
   * The collapse holds only right after its step: the Latin-1 filter can drop a character
   * standing between newlines and so rebuild a run of three, as in `"a\n\n\U{2603}\nb"`.
   */
  lemma CleanCanRebuildTripleNewline(a: char, c: char, b: char)
    requires !IsPySpace(a) && !IsPySpace(b) && a as int <= 255 && b as int <= 255 && c as int > 255
    requires !IsKey(Replacements, a) && !IsKey(Replacements, b) && !IsKey(Replacements, c)
    ensures !NoTripleNewline(CleanSpec([a, '\n', '\n', c, '\n', b]))
  {
    var s := [a, '\n', '\n', c, '\n', b];
    FirstStepsKeep(s);
    FilterWitness(a, c, b);
    StripWitness(a, b);
    assert CleanSpec(s) == [a, '\n', '\n', '\n', b];
    assert TripleNewlineAt(CleanSpec(s), 1);
  }

  lemma FilterWitness(a: char, c: char, b: char)
    requires a as int <= 255 && b as int <= 255 && c as int > 255
    ensures Latin1([a, '\n', '\n', c, '\n', b]) == [a, '\n', '\n', '\n', b]
  {
    var s := [a, '\n', '\n', c, '\n', b];
    var front, back := [a, '\n', '\n'], ['\n', b];
    assert s == front + [c] + back;
    Latin1Concat(front + [c], back);
    Latin1Concat(front, [c]);
    assert Latin1([c]) == [];
    Latin1Keeps(front);
    Latin1Keeps(back);
    assert Latin1(s) == front + back;
    assert front + back == [a, '\n', '\n', '\n', b];
  }

  lemma StripWitness(a: char, b: char)
    requires !IsPySpace(a) && !IsPySpace(b)
    ensures PyStrip([a, '\n', '\n', '\n', b]) == [a, '\n', '\n', '\n', b]
  {
    var l := [a, '\n', '\n', '\n', b];
    assert IsNonSpaceEnds(l);
    StripPadded("", l, "", IsPySpace);
    assert "" + l + "" == l;
  }

  /** Such a text passes the first three steps unchanged. */
  lemma FirstStepsKeep(s: string)
    requires |s| == 6 && s[1] == s[2] == s[4] == '\n' && s[0] != '\n' && s[3] != '\n' && s[5] != '\n'
    requires !IsKey(Replacements, s[0]) && !IsKey(Replacements, s[3]) && !IsKey(Replacements, s[5])
    ensures MapChars(CollapseNewlines(RemoveThink(s)), Replacements) == s
  {
    NoThinkInShortText(s);
    NoRunInWitness(s);
    NoKeyInWitness(s);
  }

  lemma NoThinkInShortText(s: string)
    requires |s| < |Close|
    ensures RemoveThink(s) == s
  {
    assert !Contains(s, Close);
    RemoveThinkNoClose(s);
  }

  lemma NoRunInWitness(s: string)
    requires |s| == 6 && s[3] != '\n' && s[0] != '\n'
    ensures CollapseNewlines(s) == s
  {
    assert NoTripleNewline(s);
    CollapseKeepsShortRuns(s);
  }

  lemma NoKeyInWitness(s: string)
    requires |s| == 6 && s[1] == s[2] == s[4] == '\n'
    requires !IsKey(Replacements, s[0]) && !IsKey(Replacements, s[3]) && !IsKey(Replacements, s[5])
    ensures MapChars(s, Replacements) == s
  {
    OutsideKeyRange('\n');
    MapCharsKeepsOthers(s, Replacements);
  }

  predicate IsNonSpaceEnds(x: string) {
    x != [] && !IsPySpace(x[0]) && !IsPySpace(x[|x| - 1])
  }

  lemma OutsideKeyRange(c: char)
    requires c as int < 0xA0 || c as int > 0x20B9
    ensures !IsKey(Replacements, c)
  {
    assert forall i :: 0 <= i < |Replacements| ==> 0xA0 <= Replacements[i].0 as int <= 0x20B9;
  }

  /** Characters the table does not mention are written as they are. */
  lemma {:induction false} MapCharsKeepsOthers(s: string, table: seq<(char, string)>)
    requires forall i :: 0 <= i < |s| ==> !IsKey(table, s[i])
    ensures MapChars(s, table) == s
    decreases |s|
  {
    if |s| > 0 {
      LookupFrom(table, s[0]);
      assert !IsKey(table, s[0]);
      MapCharsKeepsOthers(s[1..], table);
      assert [s[0]] + s[1..] == s;
    }
  }

  // ---------------------------------------------------------------------------------------
  // `contract_template`

  /** The lines of the template's f-string, which joins them with newlines. */
  function TemplateLineList(partyA: string, partyB: string, duration: string, jurisdiction: string,
                            contractType: string, cleanedClause: string): seq<string>
  {
    [ Upper(contractType) + " AGREEMENT", "",
      "This " + PyCapitalize(contractType) + " Agreement is made between " + partyA + " and " + partyB + ".", "",
      "1. Duration: " + duration, "2. Jurisdiction: " + jurisdiction, "3. Legal Clause:",
      cleanedClause, "", "Signed:", partyA + " | " + partyB ]
  }

  /** `contract_template`: the structured contract; the clause is sanitised before it is inserted. */
  function ContractTemplate(partyA: string, partyB: string, duration: string, jurisdiction: string,
                            contractType: string, clause: string): string
  {
    PyStrip("\n" + Join(TemplateLineList(partyA, partyB, duration, jurisdiction, contractType, CleanSpec(clause)), "\n") + "\n")
  }

  lemma UpperKeepsNonNewline(s: string)
    requires '\n' !in s
    ensures '\n' !in Upper(s) && '\n' !in PyCapitalize(s)
  {
    if |s| > 0 {
      assert '\n' !in s[1..];
      assert Lower(s[1..])[..] == Lower(s[1..]);
    }
  }

  /** When the type starts and party B ends with a visible character, the final strip removes exactly the two framing newlines. */
  lemma TemplateStrip(partyA: string, partyB: string, duration: string, jurisdiction: string,
                      contractType: string, clause: string)
    requires contractType != [] && !IsPySpace(contractType[0])
    requires partyB != [] && !IsPySpace(partyB[|partyB| - 1])
    ensures ContractTemplate(partyA, partyB, duration, jurisdiction, contractType, clause)
         == Join(TemplateLineList(partyA, partyB, duration, jurisdiction, contractType, CleanSpec(clause)), "\n")
  {
    var ls := TemplateLineList(partyA, partyB, duration, jurisdiction, contractType, CleanSpec(clause));
    assert ls[0] == Upper(contractType) + " AGREEMENT";
    assert ls[0][0] == UpperChar(contractType[0]);
    var last := partyA + " | " + partyB;
    assert ls[10] == last && last[|last| - 1] == partyB[|partyB| - 1];
    StripFramedJoin(ls);
  }

  /**
   * The layout of the contract, line by line: the title, the introduction naming both
   * parties, Duration, Jurisdiction and Legal Clause in that order, the clause's own lines,
   * and the signature line joining the two parties with " | ".
   */
  lemma TemplateLines(partyA: string, partyB: string, duration: string, jurisdiction: string,
                      contractType: string, clause: string)
    requires '\n' !in partyA && '\n' !in partyB && '\n' !in duration && '\n' !in jurisdiction
    requires '\n' !in contractType
    requires contractType != [] && !IsPySpace(contractType[0])
    requires partyB != [] && !IsPySpace(partyB[|partyB| - 1])
    ensures var ls := TemplateLineList(partyA, partyB, duration, jurisdiction, contractType, CleanSpec(clause));
      Split(ContractTemplate(partyA, partyB, duration, jurisdiction, contractType, clause), '\n') ==
      ls[..7] + Split(CleanSpec(clause), '\n') + ls[8..]
  {
    TemplateStrip(partyA, partyB, duration, jurisdiction, contractType, clause);
    var ls := TemplateLineList(partyA, partyB, duration, jurisdiction, contractType, CleanSpec(clause));
    UpperKeepsNonNewline(contractType);
    TemplateLinesPlain(partyA, partyB, duration, jurisdiction, contractType, CleanSpec(clause));
    SplitTemplateJoin(ls);
  }

  /** Of the eleven lines only the clause may hold newlines; it contributes its own pieces. */
  lemma SplitTemplateJoin(ls: seq<string>)
    requires |ls| == 11 && forall i :: 0 <= i < |ls| && i != 7 ==> '\n' !in ls[i]
    ensures Split(Join(ls, "\n"), '\n') == ls[..7] + Split(ls[7], '\n') + ls[8..]
  {
    PlainTemplateLines(ls[..7], ls[8..]);
    assert ls == ls[..7] + [ls[7]] + ls[8..];
    SplitAroundPart(ls[..7], ls[7], ls[8..]);
  }

  lemma TemplateLinesPlain(partyA: string, partyB: string, duration: string, jurisdiction: string,
                           contractType: string, cleanedClause: string)
    requires '\n' !in partyA && '\n' !in partyB && '\n' !in duration && '\n' !in jurisdiction
    requires '\n' !in Upper(contractType) && '\n' !in PyCapitalize(contractType)
    ensures var ls := TemplateLineList(partyA, partyB, duration, jurisdiction, contractType, cleanedClause);
      forall i :: 0 <= i < |ls| && i != 7 ==> '\n' !in ls[i]
  {
    var title := Upper(contractType) + " AGREEMENT";
    var intro := "This " + PyCapitalize(contractType) + " Agreement is made between " + partyA + " and " + partyB + ".";
    NoNewlineJoined(Upper(contractType), " AGREEMENT");
    IntroNoNewline(PyCapitalize(contractType), partyA, partyB);
    NoNewlineJoined("1. Duration: ", duration);
    NoNewlineJoined("2. Jurisdiction: ", jurisdiction);
    NoNewlineJoined(partyA + " | ", partyB);
    ElevenLinesPlain(title, "", intro, "", "1. Duration: " + duration, "2. Jurisdiction: " + jurisdiction,
                     "3. Legal Clause:", cleanedClause, "", "Signed:", partyA + " | " + partyB);
  }

  /** Eleven lines of which all but the eighth hold no newline. */
  lemma ElevenLinesPlain(l0: string, l1: string, l2: string, l3: string, l4: string, l5: string,
                         l6: string, l7: string, l8: string, l9: string, l10: string)
    requires '\n' !in l0 && '\n' !in l1 && '\n' !in l2 && '\n' !in l3 && '\n' !in l4 && '\n' !in l5
    requires '\n' !in l6 && '\n' !in l8 && '\n' !in l9 && '\n' !in l10
    ensures var ls := [l0, l1, l2, l3, l4, l5, l6, l7, l8, l9, l10];
      forall i :: 0 <= i < |ls| && i != 7 ==> '\n' !in ls[i]
  {
  }

  lemma IntroNoNewline(kind: string, partyA: string, partyB: string)
    requires '\n' !in kind && '\n' !in partyA && '\n' !in partyB
    ensures '\n' !in "This " + kind + " Agreement is made between " + partyA + " and " + partyB + "."
  {
  }

  lemma NoNewlineJoined(a: string, b: string)
    requires '\n' !in a && '\n' !in b
    ensures '\n' !in a + b
  {
  }

  lemma PlainTemplateLines(front: seq<string>, back: seq<string>)
    requires forall i :: 0 <= i < |front| ==> '\n' !in front[i]
    requires forall i :: 0 <= i < |back| ==> '\n' !in back[i]
    ensures SplitEach(front, '\n') == front && SplitEach(back, '\n') == back
  {
    SplitEachPlain(front, '\n');
    SplitEachPlain(back, '\n');
  }

  /** The only part that may hold newlines contributes its own pieces. */
  lemma SplitAroundPart(front: seq<string>, part: string, back: seq<string>)
    requires SplitEach(front, '\n') == front && SplitEach(back, '\n') == back
    ensures Split(Join(front + [part] + back, "\n"), '\n') == front + Split(part, '\n') + back
  {
    assert "\n" == ['\n'];
    SplitJoin(front + [part] + back, '\n');
    SplitEachMiddle(front, part, back, '\n');
  }

  // ---------------------------------------------------------------------------------------
  // `pdf_generation`: what happens to each line of the contract text

  datatype LineKind = Title | Intro | Signature | Numbered | Heading | Plain | Blank

  predicate IsIntroLine(line: string) {
    IsPrefix("This", PyStrip(line)) && Contains(line, "Agreement is made between")
  }

  predicate IsSignatureLine(line: string) {
    IsPrefix("Signed:", PyStrip(line))
  }

  /** A line whose first character is a digit and whose first five characters hold ". ". */
  predicate IsNumberedLine(line: string) {
    PyStrip(line) != [] && IsAsciiDigit(line[0]) && Contains(line[..if |line| < 5 then |line| else 5], ". ")
  }

  predicate IsHeadingLine(line: string) {
    IsPrefix("**", PyStrip(line)) && IsSuffix("**", PyStrip(line))
  }

  /** The if/elif chain of the loop, in the source's order. */
  function Classify(line: string, typeUpper: string): LineKind {
    if Upper(PyStrip(line)) == typeUpper + " AGREEMENT" then Title
    else if IsIntroLine(line) then Intro
    else if IsSignatureLine(line) then Signature
    else if IsNumberedLine(line) then Numbered
    else if IsHeadingLine(line) then Heading
    else if PyStrip(line) != [] then Plain
    else Blank
  }

  /** One text cell written to the page, with the font weight in effect. */
  datatype Cell = Cell(text: string, bold: bool)

  /** The cells a line of the given kind produces and the font weight left in effect after it. */
  function KindStep(kind: LineKind, line: string, bold: bool): (seq<Cell>, bool) {
    match kind
    case Title => ([], bold)
    case Intro => ([Cell(line, true)], false)
    case Signature => ([Cell(line, true)], true)
    case Numbered => ([Cell(line, true)], false)
    case Heading => ([Cell(ReplaceAll(PyStrip(line), "**", ""), true)], false)
    case Plain => ([Cell(line, bold)], bold)
    case Blank => ([], bold)
  }

  function LineStep(line: string, typeUpper: string, bold: bool): (seq<Cell>, bool) {
    KindStep(Classify(line, typeUpper), line, bold)
  }

  /** The cells of a sequence of lines, starting with the given font weight. */
  function Layout(lines: seq<string>, typeUpper: string, bold: bool): seq<Cell>
    decreases |lines|
  {
    if |lines| == 0 then []
    else
      var step := LineStep(lines[0], typeUpper, bold);
      step.0 + Layout(lines[1..], typeUpper, step.1)
  }

  lemma LayoutAt(lines: seq<string>, i: nat, typeUpper: string, bold: bool)
    requires i < |lines|
    ensures Layout(lines[i..], typeUpper, bold) ==
      LineStep(lines[i], typeUpper, bold).0 + Layout(lines[i + 1..], typeUpper, LineStep(lines[i], typeUpper, bold).1)
  {
    assert lines[i..][0] == lines[i] && lines[i..][1..] == lines[i + 1..];
  }

  /** The title cell `pdf_generation` writes first, in bold, before the content loop. */
  function TitleCell(typeUpper: string): Cell {
    Cell(typeUpper + " AGREEMENT", true)
  }

  /**
   * `pdf_generation`: the title cell, then the content loop, whose font starts regular and
   * is switched per line.
   */
  method RenderContent(contractContent: string, contractType: string) returns (cells: seq<Cell>)
    ensures cells == [TitleCell(Upper(contractType))] + Layout(Split(contractContent, '\n'), Upper(contractType), false)
  {
    var typeUpper := Upper(contractType);
    var lines := Split(contractContent, '\n');
    var bold := false;
    cells := [TitleCell(typeUpper)];
    for i := 0 to |lines|
      invariant cells + Layout(lines[i..], typeUpper, bold) == [TitleCell(typeUpper)] + Layout(lines, typeUpper, false)
    {
      LayoutAt(lines, i, typeUpper, bold);
      var written := LineStep(lines[i], typeUpper, bold);
      AppendAssoc(cells, written.0, Layout(lines[i + 1..], typeUpper, written.1));
      cells := cells + written.0;
      bold := written.1;
    }
  }

  predicate Skipped(line: string, typeUpper: string) {
    Classify(line, typeUpper) == Title || Classify(line, typeUpper) == Blank
  }

  function Kept(lines: seq<string>, typeUpper: string): seq<string> {
    if |lines| == 0 then []
    else (if Skipped(lines[0], typeUpper) then [] else [lines[0]]) + Kept(lines[1..], typeUpper)
  }

  /** Blank lines and the title line write nothing and leave the font alone. */
  lemma {:induction false} LayoutIgnoresSkipped(lines: seq<string>, typeUpper: string, bold: bool)
    ensures Layout(lines, typeUpper, bold) == Layout(Kept(lines, typeUpper), typeUpper, bold)
    decreases |lines|
  {
    if |lines| > 0 {
      var rest := lines[1..];
      if Skipped(lines[0], typeUpper) {
        LayoutIgnoresSkipped(rest, typeUpper, bold);
        assert Kept(lines, typeUpper) == Kept(rest, typeUpper);
      } else {
        var step := LineStep(lines[0], typeUpper, bold);
        LayoutIgnoresSkipped(rest, typeUpper, step.1);
        var k := Kept(lines, typeUpper);
        assert k == [lines[0]] + Kept(rest, typeUpper);
        assert k[0] == lines[0] && k[1..] == Kept(rest, typeUpper);
      }
    }
  }

  lemma StripStartsWithFirst(line: string)
    requires line != [] && !IsPySpace(line[0])
    ensures PyStrip(line) != [] && PyStrip(line)[0] == line[0]
  {
    var t := DropLeading(line, IsPySpace);
    assert t == line;
    var r := DropTrailing(t, IsPySpace);
    assert r != [] by {
      assert !IsPySpace(line[0]);
    }
    assert r[0] == t[0];
  }

  /**
   * The introduction, signature, numbered and heading tests never hold together, so their
   * order in the chain decides nothing; only the title test before them and the plain
   * fallback after them take precedence.
   */
  lemma LineTestsExclusive(line: string)
    ensures !(IsIntroLine(line) && IsSignatureLine(line))
    ensures !(IsSignatureLine(line) && IsNumberedLine(line))
    ensures !(IsIntroLine(line) && IsNumberedLine(line))
    ensures !(IsHeadingLine(line) && (IsIntroLine(line) || IsSignatureLine(line) || IsNumberedLine(line)))
  {
    var t := PyStrip(line);
    if IsPrefix("This", t) {
      PrefixAt("This", t, 0);
      PrefixAt("This", t, 1);
    }
    if IsPrefix("Signed:", t) {
      PrefixAt("Signed:", t, 0);
      PrefixAt("Signed:", t, 1);
    }
    if IsPrefix("**", t) {
      PrefixAt("**", t, 0);
    }
    if line != [] && IsAsciiDigit(line[0]) {
      StripStartsWithFirst(line);
    }
  }

  /** A string that starts with `p` agrees with `p` at each of `p`'s positions. */
  lemma PrefixAt(p: string, t: string, i: nat)
    requires IsPrefix(p, t) && i < |p|
    ensures t[i] == p[i]
  {
    assert t[..|p|][i] == t[i];
  }

  lemma {:induction false} ReplaceStarsHead(s: string)
    requires |s| > 0 && s[0] != '*'
    ensures ReplaceAll(s, "**", "") == [s[0]] + ReplaceAll(s[1..], "**", "")
  {
  }

  /** A heading is written with every `**` removed, and no `**` is left in what is written. */
  lemma {:induction false} StarsRemoved(s: string)
    ensures !Contains(ReplaceAll(s, "**", ""), "**")
    decreases |s|
  {
    if |s| > 0 {
      var r := ReplaceAll(s, "**", "");
      if IsPrefix("**", s) {
        StarsRemoved(s[2..]);
        assert r == ReplaceAll(s[2..], "**", "");
      } else {
        var tail := ReplaceAll(s[1..], "**", "");
        StarsRemoved(s[1..]);
        assert r == [s[0]] + tail;
        assert tail == [] || s[0] != '*' || tail[0] != '*' by {
          if s[0] == '*' && |s| > 1 {
            assert s[1] != '*' by {
              assert s[..2] != "**";
            }
            ReplaceStarsHead(s[1..]);
          }
        }
        OccursShift(r, "**");
        assert r[1..] == tail;
        forall i | 0 <= i <= |r| - 2 ensures !OccursAt(r, "**", i) {
          if i == 0 {
            assert r[0..2] == [r[0], r[1]];
          }
        }
      }
    }
  }

  /** After a signature line the bold font stays on, so a plain line after it is bold too. */
  lemma SignatureFontCarriesOver(signed: string, plain: string, typeUpper: string)
    requires Classify(signed, typeUpper) == Signature && Classify(plain, typeUpper) == Plain
    ensures Layout([signed, plain], typeUpper, false) == [Cell(signed, true), Cell(plain, true)]
  {
    assert [signed, plain][1..] == [plain];
    assert LineStep(signed, typeUpper, false) == ([Cell(signed, true)], true);
    assert LineStep(plain, typeUpper, true) == ([Cell(plain, true)], true);
    assert [plain][1..] == [];
    assert Layout([plain], typeUpper, true) == [Cell(plain, true)];
  }

  // ---------------------------------------------------------------------------------------
  // `generate_contract`

  /** The five required request fields, each of which must be present. */
  predicate HasRequiredFields(data: map<string, string>) {
    "party_a" in data && "party_b" in data && "duration" in data && "jurisdiction" in data
    && "contract_type" in data
  }

  /** `f"{type.lower()}_agreement_{a.split()[0].lower()}_{b.split()[0].lower()}.pdf"` */
  function PdfFileName(contractType: string, partyA: string, partyB: string): (r: Option<string>)
    ensures r.None? <==> FirstWord(partyA).None? || FirstWord(partyB).None?
    ensures r.Some? ==> IsPrefix(Lower(contractType) + "_agreement_", r.value) && IsSuffix(".pdf", r.value)
  {
    match (FirstWord(partyA), FirstWord(partyB))
    case (Some(a), Some(b)) =>
      var name := Lower(contractType) + "_agreement_" + Lower(a) + "_" + Lower(b) + ".pdf";
      assert name == (Lower(contractType) + "_agreement_") + (Lower(a) + "_" + Lower(b) + ".pdf");
      assert name[|name| - 4..] == ".pdf";
      Some(name)
    case _ => None
  }

  datatype GenerateBody =
    | ErrorBody(error: string)
    | ContractBody(message: string, contract: string, pdfUrl: string)

  datatype GenerateResponse = GenerateResponse(status: nat, body: GenerateBody)

  /**
   * The endpoint. `clauseReply` is what the clause tool's model call returned (or the
   * message of its exception); `upload` is the outcome of writing and uploading the PDF.
   */
  function GenerateContract(data: map<string, string>, clauseReply: Result<string, string>,
                            upload: Result<string, string>): (r: GenerateResponse)
    ensures r.status == 400 <==> !HasRequiredFields(data)
    ensures r.status == 400 ==> r.body == ErrorBody("Missing required fields")
    ensures r.status == 200 || r.status == 400 || r.status == 500
    ensures r.status == 500 <==>
      && HasRequiredFields(data)
      && (clauseReply.Err? || upload.Err? || FirstWord(data["party_a"]).None? || FirstWord(data["party_b"]).None?)
    ensures HasRequiredFields(data) && clauseReply.Err? ==> r.body == ErrorBody(clauseReply.error)
    ensures (HasRequiredFields(data) && clauseReply.Ok?
             && PdfFileName(data["contract_type"], data["party_a"], data["party_b"]).None?) ==>
      r.body == ErrorBody("list index out of range")
    ensures (HasRequiredFields(data) && clauseReply.Ok?
             && PdfFileName(data["contract_type"], data["party_a"], data["party_b"]).Some? && upload.Err?) ==>
      r.body == ErrorBody(upload.error)
    ensures r.status == 200 ==>
      && clauseReply.Ok? && upload.Ok?
      && PdfFileName(data["contract_type"], data["party_a"], data["party_b"]).Some?
      && r.body == ContractBody("Contract generated and uploaded.",
                                CleanSpec(ContractTemplate(data["party_a"], data["party_b"], data["duration"],
                                                           data["jurisdiction"], data["contract_type"],
                                                           PyStrip(clauseReply.value))),
                                upload.value)
  {
    if !HasRequiredFields(data) then
      GenerateResponse(400, ErrorBody("Missing required fields"))
    else
      var contractType, jurisdiction := data["contract_type"], data["jurisdiction"];
      var partyA, partyB, duration := data["party_a"], data["party_b"], data["duration"];
      match clauseReply
      case Err(e) => GenerateResponse(500, ErrorBody(e))
      case Ok(reply) =>
        var contract := ContractTemplate(partyA, partyB, duration, jurisdiction, contractType, PyStrip(reply));
        var cleaned := CleanSpec(contract);
        match PdfFileName(contractType, partyA, partyB)
        case None => GenerateResponse(500, ErrorBody("list index out of range"))
        case Some(_) =>
          match upload
          case Err(e) => GenerateResponse(500, ErrorBody(e))
          case Ok(url) => GenerateResponse(200, ContractBody("Contract generated and uploaded.", cleaned, url))
  }
}
