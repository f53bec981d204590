/** A JSON value as `json.load` produces it: objects keep their insertion
    order as a list of entries. */
module JsonValue {
  datatype Json =
    | JNull
    | JBool(b: bool)
    | JNum(n: int)
    | JStr(s: string)
    | JList(items: seq<Json>)
    | JObj(entries: seq<(string, Json)>)
}

/** `fix_corrupted_text` (fix_utf8_encoding.py:13-47): an ordered table of
    literal replacements applied one after the other with `str.replace`. */
module TextRepair {
  import opened JsonValue

  /** An ordered replacement table: (pattern, replacement) pairs. */
  type Table = seq<(string, string)>

  // ---------------------------------------------------------------- str.replace

  /** `s.replace('', rep)`: `rep` before every character and at the end. */
  function InterleaveEmpty(s: string, rep: string): (r: string)
    ensures |r| == |s| + (|s| + 1) * |rep|
  {
    if s == [] then rep else rep + [s[0]] + InterleaveEmpty(s[1..], rep)
  }

  /** `s.replace(pat, rep)`: every non-overlapping occurrence of `pat`,
      scanning left to right, becomes `rep`. */
  function ReplaceAll(s: string, pat: string, rep: string): string
    decreases |s|
  {
    if pat == [] then InterleaveEmpty(s, rep)
    else if |s| < |pat| then s
    else if s[..|pat|] == pat then rep + ReplaceAll(s[|pat|..], pat, rep)
    else [s[0]] + ReplaceAll(s[1..], pat, rep)
  }

  /** A string without the first character of a non-empty pattern is left alone. */
  lemma {:induction false} ReplaceAbsent(s: string, pat: string, rep: string)
    requires pat != [] && pat[0] !in s
    ensures ReplaceAll(s, pat, rep) == s
    decreases |s|
  {
    if |s| >= |pat| {
      assert s[..|pat|][0] == s[0];
      ReplaceAbsent(s[1..], pat, rep);
    }
  }

  /** Replacing a non-empty pattern by something no longer never lengthens the string. */
  lemma {:induction false} ReplaceNotLonger(s: string, pat: string, rep: string)
    requires pat != [] && |rep| <= |pat|
    ensures |ReplaceAll(s, pat, rep)| <= |s|
    decreases |s|
  {
    if |s| >= |pat| {
      if s[..|pat|] == pat {
        ReplaceNotLonger(s[|pat|..], pat, rep);
      } else {
        ReplaceNotLonger(s[1..], pat, rep);
      }
    }
  }

  /** Replacing a one-character pattern by text without that character removes it everywhere. */
  lemma {:induction false} ReplaceRemoves(s: string, m: char, rep: string)
    requires m !in rep
    ensures m !in ReplaceAll(s, [m], rep)
    decreases |s|
  {
    if |s| >= 1 {
      ReplaceRemoves(s[1..], m, rep);
      if s[..1] != [m] {
        assert s[0] != m;
      }
    }
  }

  /** A string shorter than the pattern, or one that differs from a pattern of
      the same length, comes out unchanged. */
  lemma ReplaceOther(s: string, pat: string, rep: string)
    requires pat != [] && (|s| < |pat| || (|s| == |pat| && s != pat))
    ensures ReplaceAll(s, pat, rep) == s
  {
    if |s| == |pat| {
      assert s[..|pat|] == s;
      assert |s[1..]| < |pat|;
    }
  }

  /** A string equal to the pattern becomes the replacement. */
  lemma ReplaceWhole(pat: string, rep: string)
    requires pat != []
    ensures ReplaceAll(pat, pat, rep) == rep
  {
    assert pat[..|pat|] == pat;
    assert pat[|pat|..] == [];
  }

  // ---------------------------------------------------------------- the table

  /** The table applied in order, each entry to the result of the ones before. */
  function ApplyTable(table: Table, s: string): string
    decreases |table|
  {
    if table == [] then s else ApplyTable(table[1..], ReplaceAll(s, table[0].0, table[0].1))
  }

  /** Applying two tables one after the other is applying their concatenation. */
  lemma {:induction false} ApplyTableAppend(a: Table, b: Table, s: string)
    ensures ApplyTable(a + b, s) == ApplyTable(b, ApplyTable(a, s))
    decreases |a|
  {
    if a == [] {
      assert a + b == b;
    } else {
      assert (a + b)[0] == a[0];
      assert (a + b)[1..] == a[1..] + b;
      ApplyTableAppend(a[1..], b, ReplaceAll(s, a[0].0, a[0].1));
    }
  }

  /** Every pattern starts with the marker character `m`. */
  predicate MarkedPatterns(table: Table, m: char) {
    forall i :: 0 <= i < |table| ==> table[i].0 != [] && table[i].0[0] == m
  }

  /** A string without the marker comes out of a marked table unchanged. */
  lemma {:induction false} ApplyUnmarked(table: Table, m: char, s: string)
    requires MarkedPatterns(table, m) && m !in s
    ensures ApplyTable(table, s) == s
    decreases |table|
  {
    if table != [] {
      ReplaceAbsent(s, table[0].0, table[0].1);
      ApplyUnmarked(table[1..], m, s);
    }
  }

  /** With non-empty patterns and replacements no longer than them, the result
      is never longer than the input. */
  lemma {:induction false} ApplyNotLonger(table: Table, s: string)
    requires forall i :: 0 <= i < |table| ==> table[i].0 != [] && |table[i].1| <= |table[i].0|
    ensures |ApplyTable(table, s)| <= |s|
    decreases |table|
  {
    if table != [] {
      ReplaceNotLonger(s, table[0].0, table[0].1);
      ApplyNotLonger(table[1..], ReplaceAll(s, table[0].0, table[0].1));
    }
  }

  /** Patterns of two characters, all different, each replaced by a single character. */
  predicate PairTable(table: Table) {
    && (forall i :: 0 <= i < |table| ==> |table[i].0| == 2 && |table[i].1| == 1)
    && (forall i, j :: 0 <= i < j < |table| ==> table[i].0 != table[j].0)
  }

  /** In such a table every pattern on its own is turned into its own replacement. */
  lemma {:induction false} PairTableMapsKeys(table: Table, i: nat)
    requires PairTable(table) && i < |table|
    ensures ApplyTable(table, table[i].0) == table[i].1
    decreases |table|
  {
    var k := table[i].0;
    if i == 0 {
      ReplaceWhole(k, table[0].1);
      ShortUnchanged(table[1..], table[0].1);
    } else {
      ReplaceOther(k, table[0].0, table[0].1);
      assert PairTable(table[1..]) by {
        forall a, b | 0 <= a < b < |table[1..]|
          ensures table[1..][a].0 != table[1..][b].0
        {
          assert table[1..][a] == table[a + 1] && table[1..][b] == table[b + 1];
        }
      }
      PairTableMapsKeys(table[1..], i - 1);
    }
  }

  /** A single character is shorter than every pattern of a pair table. */
  lemma {:induction false} ShortUnchanged(table: Table, s: string)
    requires forall i :: 0 <= i < |table| ==> |table[i].0| == 2
    requires |s| == 1
    ensures ApplyTable(table, s) == s
    decreases |table|
  {
    if table != [] {
      ReplaceOther(s, table[0].0, table[0].1);
      ShortUnchanged(table[1..], s);
    }
  }

  // ---------------------------------------------------------------- the dictionary literal

  /** A dictionary display evaluated left to right: a repeated key keeps its
      first position and takes the later value. */
  function DictFromLiteral(pairs: Table): (d: Table)
    ensures |d| <= |pairs|
  {
    if pairs == [] then [] else Insert(DictFromLiteral(pairs[..|pairs| - 1]), pairs[|pairs| - 1])
  }

  function Insert(d: Table, kv: (string, string)): (r: Table)
    ensures |r| == if exists i :: 0 <= i < |d| && d[i].0 == kv.0 then |d| else |d| + 1
  {
    if d == [] then [kv]
    else if d[0].0 == kv.0 then [kv] + d[1..]
    else [d[0]] + Insert(d[1..], kv)
  }

  const A: char := '\U{00C3}'

  /** The dictionary display of fix_utf8_encoding.py:28-41, entry by entry.
      The keys at :35 and :37 are both the bare `Ã`. */
  const Literal: Table := [
    ([A, '\U{00B3}'], "\U{00F3}"),
    ([A, '\U{00A1}'], "\U{00E1}"),
    ([A, '\U{00AD}'], "\U{00ED}"),
    ([A, '\U{00BA}'], "\U{00FA}"),
    ([A, '\U{00A9}'], "\U{00E9}"),
    ([A, '\U{00B1}'], "\U{00F1}"),
    ([A], "\U{00C1}"),
    ([A, '\U{2030}'], "\U{00C9}"),
    ([A], "\U{00CD}"),
    ([A, '"'], "\U{00D3}"),
    ([A, '\U{0161}'], "\U{00DA}"),
    ([A, '\''], "\U{00D1}")
  ]

  /** The table the dictionary actually holds: eleven entries, the bare `Ã`
      seventh and mapped to `Í`. */
  const AsWritten: Table := [
    ([A, '\U{00B3}'], "\U{00F3}"),
    ([A, '\U{00A1}'], "\U{00E1}"),
    ([A, '\U{00AD}'], "\U{00ED}"),
    ([A, '\U{00BA}'], "\U{00FA}"),
    ([A, '\U{00A9}'], "\U{00E9}"),
    ([A, '\U{00B1}'], "\U{00F1}"),
    ([A], "\U{00CD}"),
    ([A, '\U{2030}'], "\U{00C9}"),
    ([A, '"'], "\U{00D3}"),
    ([A, '\U{0161}'], "\U{00DA}"),
    ([A, '\''], "\U{00D1}")
  ]

  /** The table with the keys the Windows-1252 mis-encoding really
      produces: `Ã` followed by U+0081 for `Á` and by U+008D for `Í`, which
      the source wrote as the bare `Ã`, and followed by U+201C for `Ó` and by
      U+2018 for `Ñ`, which the source wrote with straight quotes. */
  const Corrected: Table := [
    ([A, '\U{00B3}'], "\U{00F3}"),
    ([A, '\U{00A1}'], "\U{00E1}"),
    ([A, '\U{00AD}'], "\U{00ED}"),
    ([A, '\U{00BA}'], "\U{00FA}"),
    ([A, '\U{00A9}'], "\U{00E9}"),
    ([A, '\U{00B1}'], "\U{00F1}"),
    ([A, '\U{0081}'], "\U{00C1}"),
    ([A, '\U{2030}'], "\U{00C9}"),
    ([A, '\U{008D}'], "\U{00CD}"),
    ([A, '\U{201C}'], "\U{00D3}"),
    ([A, '\U{0161}'], "\U{00DA}"),
    ([A, '\U{2018}'], "\U{00D1}")
  ]

  /** Keys that are all different. */
  predicate DistinctPatterns(table: Table) {
    forall i, j :: 0 <= i < j < |table| ==> table[i].0 != table[j].0
  }

  /** A new key goes to the end. */
  lemma {:induction false} InsertNew(d: Table, kv: (string, string))
    requires forall i :: 0 <= i < |d| ==> d[i].0 != kv.0
    ensures Insert(d, kv) == d + [kv]
  {
    if d != [] {
      InsertNew(d[1..], kv);
    }
  }

  /** A repeated key keeps its place and takes the new value. */
  lemma {:induction false} InsertExisting(d: Table, j: nat, kv: (string, string))
    requires j < |d| && d[j].0 == kv.0
    requires forall i :: 0 <= i < j ==> d[i].0 != kv.0
    ensures Insert(d, kv) == d[j := kv]
  {
    if j > 0 {
      InsertExisting(d[1..], j - 1, kv);
    }
  }

  /** A display without repeated keys evaluates to itself. */
  lemma {:induction false} DistinctLiteral(pairs: Table)
    requires DistinctPatterns(pairs)
    ensures DictFromLiteral(pairs) == pairs
  {
    if pairs != [] {
      var init := pairs[..|pairs| - 1];
      assert DistinctPatterns(init);
      DistinctLiteral(init);
      InsertNew(init, pairs[|pairs| - 1]);
    }
  }

  /** The display of :28-41 evaluates to the eleven-entry table. */
  lemma LiteralCollapses()
    ensures DictFromLiteral(Literal) == AsWritten
    ensures |Literal| == 12 && |AsWritten| == 11
  {
    var l := Literal;
    LiteralFirstTen();
    DictStepNew(l, 10, AsWritten[..9]);
    assert AsWritten[..9] + [l[10]] == AsWritten[..10];
    DictStepNew(l, 11, AsWritten[..10]);
    assert l[..12] == l;
  }

  /** The first ten pairs: the `Ã"` key is new. */
  lemma LiteralFirstTen()
    ensures DictFromLiteral(Literal[..10]) == AsWritten[..9]
  {
    LiteralFirstNine();
    DictStepNew(Literal, 9, AsWritten[..8]);
    assert AsWritten[..8] + [Literal[9]] == AsWritten[..9];
  }

  /** The first nine pairs: the second bare `Ã` overwrites the first. */
  lemma LiteralFirstNine()
    ensures DictFromLiteral(Literal[..9]) == AsWritten[..8]
  {
    var l := Literal;
    DistinctLiteral(l[..8]);
    DictStepExisting(l, 8, l[..8], 6);
  }

  /** One more pair of the display: a new key goes to the end. */
  lemma DictStepNew(pairs: Table, k: nat, d: Table)
    requires k < |pairs| && DictFromLiteral(pairs[..k]) == d
    requires forall i :: 0 <= i < |d| ==> d[i].0 != pairs[k].0
    ensures DictFromLiteral(pairs[..k + 1]) == d + [pairs[k]]
  {
    assert pairs[..k + 1][..k] == pairs[..k];
    InsertNew(d, pairs[k]);
  }

  /** One more pair of the display: a repeated key takes the new value. */
  lemma DictStepExisting(pairs: Table, k: nat, d: Table, j: nat)
    requires k < |pairs| && DictFromLiteral(pairs[..k]) == d
    requires j < |d| && d[j].0 == pairs[k].0
    requires forall i :: 0 <= i < j ==> d[i].0 != pairs[k].0
    ensures DictFromLiteral(pairs[..k + 1]) == d[j := pairs[k]]
  {
    assert pairs[..k + 1][..k] == pairs[..k];
    InsertExisting(d, j, pairs[k]);
  }

  /** Every entry of the eleven-entry table after the bare `Ã` is dead: the
      bare key has already turned every `Ã` into `Í`. */
  lemma DeadAfterBareKey(s: string)
    ensures ApplyTable(AsWritten, s) == ApplyTable(AsWritten[..7], s)
    ensures A !in ApplyTable(AsWritten[..7], s)
  {
    var head, tail := AsWritten[..7], AsWritten[7..];
    assert AsWritten == head + tail;
    ApplyTableAppend(head, tail, s);
    var t := ApplyTable(AsWritten[..6], s);
    assert head == AsWritten[..6] + [([A], "\U{00CD}")];
    ApplyTableAppend(AsWritten[..6], [([A], "\U{00CD}")], s);
    ReplaceRemoves(t, A, "\U{00CD}");
    ApplyUnmarked(tail, A, ApplyTable(head, s));
  }

  /** As written, the mis-encoded `É` comes out as `Í‰`. */
  lemma AsWrittenBreaksE()
    ensures ApplyTable(AsWritten, [A, '\U{2030}']) == ['\U{00CD}', '\U{2030}']
  {
    var s := [A, '\U{2030}'];
    ApplyTableAppend(AsWritten[..6], AsWritten[6..], s);
    assert AsWritten == AsWritten[..6] + AsWritten[6..];
    assert ApplyTable(AsWritten[..6], s) == s by {
      ApplySkipsE(AsWritten[..6]);
    }
    var t := ReplaceAll(s, [A], "\U{00CD}");
    assert s[..1] == [A] && s[1..] == ['\U{2030}'];
    ReplaceOther(['\U{2030}'], [A], "\U{00CD}");
    assert t == ['\U{00CD}', '\U{2030}'];
    assert AsWritten[6..][1..] == AsWritten[7..];
    ApplyUnmarked(AsWritten[7..], A, t);
  }

  lemma ApplySkipsE(table: Table)
    requires forall i :: 0 <= i < |table| ==> |table[i].0| == 2 && table[i].0 != [A, '\U{2030}']
    ensures ApplyTable(table, [A, '\U{2030}']) == [A, '\U{2030}']
    decreases |table|
  {
    if table != [] {
      ReplaceOther([A, '\U{2030}'], table[0].0, table[0].1);
      ApplySkipsE(table[1..]);
    }
  }

  /** Every pattern of the table contains `Ã` (as its first character), so a
      string without `Ã` is returned unchanged. */
  lemma AsWrittenKeepsUnmarked(s: string)
    requires A !in s
    ensures ApplyTable(AsWritten, s) == s
  {
    ApplyUnmarked(AsWritten, A, s);
  }

  /** Each replacement puts one character in place of a non-empty pattern, so
      the result is never longer than the input. */
  lemma AsWrittenNotLonger(s: string)
    ensures |ApplyTable(AsWritten, s)| <= |s|
  {
    ApplyNotLonger(AsWritten, s);
  }

  /** The corrected table turns each of its twelve mis-encodings into its letter. */
  lemma CorrectedMapsKeys(i: nat)
    requires i < |Corrected|
    ensures ApplyTable(Corrected, Corrected[i].0) == Corrected[i].1
  {
    PairTableMapsKeys(Corrected, i);
  }

  // ---------------------------------------------------------------- the operation

  /** `fix_corrupted_text`: a non-string is returned as it is; a string goes
      through the table entry by entry. */
  method FixCorruptedText(table: Table, text: Json) returns (r: Json)
    ensures !text.JStr? ==> r == text
    ensures text.JStr? ==> r == JStr(ApplyTable(table, text.s))
  {
    if !text.JStr? {
      return text;
    }
    var result := text.s;
    var i := 0;
    while i < |table|
      invariant 0 <= i <= |table|
      invariant ApplyTable(table[i..], result) == ApplyTable(table, text.s)
    {
      var (wrong, correct) := table[i];
      assert table[i..][1..] == table[i + 1..];
      result := ReplaceAll(result, wrong, correct);
      i := i + 1;
    }
    return JStr(result);
  }
}
