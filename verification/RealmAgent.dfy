/** The realm agent's configuration rewriter: replacing settings in place,
    appending the missing ones, and reading the file back. */
module RealmAgent {
  import opened Common
  import opened ConfigText

  const HEADER: string := "# Managed by Azeroth Portal realm agent"

  // ------------------------------------------------------------ sorted keys

  /** Byte order of strings. */
  predicate LessEq(a: string, b: string) {
    a == "" || (b != "" && (a[0] < b[0] || (a[0] == b[0] && LessEq(a[1..], b[1..]))))
  }

  lemma {:induction false} LessEqTotal(a: string, b: string)
    ensures LessEq(a, b) || LessEq(b, a)
    ensures LessEq(a, b) && LessEq(b, a) ==> a == b
  {
    if a != "" && b != "" && a[0] == b[0] {
      LessEqTotal(a[1..], b[1..]);
      assert a == [a[0]] + a[1..] && b == [b[0]] + b[1..];
    }
  }

  lemma {:induction false} LessEqTransitive(a: string, b: string, c: string)
    requires LessEq(a, b) && LessEq(b, c)
    ensures LessEq(a, c)
  {
    if a != "" && a[0] == b[0] == c[0] { LessEqTransitive(a[1..], b[1..], c[1..]); }
  }

  predicate IsLeast(m: string, keys: set<string>) { m in keys && forall k :: k in keys ==> LessEq(m, k) }

  lemma {:induction false} LeastExists(keys: set<string>) returns (m: string)
    requires keys != {}
    ensures IsLeast(m, keys)
    decreases keys
  {
    var k :| k in keys;
    if keys == {k} {
      LessEqTotal(k, k);
      m := k;
    } else {
      var l := LeastExists(keys - {k});
      LessEqTotal(k, l);
      m := if LessEq(k, l) then k else l;
      forall j | j in keys ensures LessEq(m, j) {
        if j == k {
          LessEqTotal(k, k);
        } else {
          assert LessEq(l, j);
          if m == k { LessEqTransitive(k, l, j); }
        }
      }
    }
  }

  /** sort.Strings of distinct keys. */
  function Sorted(keys: set<string>): (sorted: seq<string>)
    ensures forall k :: k in sorted <==> k in keys
    ensures |sorted| == |keys|
    decreases keys
  {
    if keys == {} then []
    else
      LeastIsUnique(keys);
      var m :| IsLeast(m, keys);
      [m] + Sorted(keys - {m})
  }

  lemma LeastIsUnique(keys: set<string>)
    requires keys != {}
    ensures exists m :: IsLeast(m, keys)
    ensures forall m, n :: IsLeast(m, keys) && IsLeast(n, keys) ==> m == n
  {
    var least := LeastExists(keys);
    forall m, n | IsLeast(m, keys) && IsLeast(n, keys) ensures m == n { LessEqTotal(m, n); }
  }

  lemma SortedUnfold(keys: set<string>) returns (m: string)
    requires keys != {}
    ensures IsLeast(m, keys) && Sorted(keys) == [m] + Sorted(keys - {m})
  {
    LeastIsUnique(keys);
    m :| IsLeast(m, keys) && Sorted(keys) == [m] + Sorted(keys - {m});
  }

  lemma {:induction false} SortedIsAscending(keys: set<string>, i: nat, j: nat)
    requires i < j < |Sorted(keys)|
    ensures LessEq(Sorted(keys)[i], Sorted(keys)[j]) && Sorted(keys)[i] != Sorted(keys)[j]
    decreases keys
  {
    hide Sorted, LessEq;
    var m := SortedUnfold(keys);
    var rest := Sorted(keys - {m});
    assert Sorted(keys)[j] == rest[j - 1];
    if i == 0 {
      assert rest[j - 1] in rest && rest[j - 1] in keys - {m};
    } else {
      SortedIsAscending(keys - {m}, i - 1, j - 1);
    }
  }

  // ------------------------------------------------------------ the printer

  type Replacements = map<string, string>

  function RewriteLine(line: string, r: Replacements): string {
    if KeyOf(line).Some? && KeyOf(line).value in r then Setting(KeyOf(line).value, r[KeyOf(line).value]) else line
  }

  function Rewrite(lines: seq<string>, r: Replacements): (rewritten: seq<string>)
    ensures |rewritten| == |lines|
  {
    seq(|lines|, i requires 0 <= i < |lines| => RewriteLine(lines[i], r))
  }

  predicate Sets(lines: seq<string>, key: string) { exists i :: 0 <= i < |lines| && KeyOf(lines[i]) == Some(key) }

  function Found(lines: seq<string>, r: Replacements): set<string> {
    set k | k in r && Sets(lines, k) :: k
  }

  function Missing(lines: seq<string>, r: Replacements): set<string> {
    r.Keys - Found(lines, r)
  }

  function Settings(keys: seq<string>, r: Replacements): (lines: seq<string>)
    requires forall k :: k in keys ==> k in r
    ensures |lines| == |keys|
  {
    if keys == [] then [] else Settings(keys[..|keys| - 1], r) + [Setting(keys[|keys| - 1], r[keys[|keys| - 1]])]
  }

  function Appendix(missing: set<string>, r: Replacements): seq<string>
    requires missing <= r.Keys
  {
    if missing == {} then [] else ["", HEADER] + Settings(Sorted(missing), r)
  }

  function Output(lines: seq<string>, r: Replacements): seq<string> {
    Rewrite(lines, r) + Appendix(Missing(lines, r), r)
  }

  /** The text replaceValues returns. */
  function Replaced(data: string, r: Replacements): string {
    Join(Output(Lines(data), r))
  }

  /** Line by line in place, then the missing keys in order. */
  method ReplaceValues(data: string, r: Replacements) returns (text: string)
    ensures text == Replaced(data, r)
  {
    hide KeyOf, Setting, Lines, Join, Sorted, Found;
    var lines := Lines(data);
    ghost var was := lines;
    var found: set<string> := {};
    NothingFound(lines, r);
    for i := 0 to |lines|
      invariant |lines| == |was| && found == Found(was[..i], r)
      invariant forall j :: 0 <= j < i ==> lines[j] == RewriteLine(was[j], r)
      invariant forall j :: i <= j < |lines| ==> lines[j] == was[j]
    {
      var key := KeyOf(lines[i]);
      FoundSnoc(was, r, i);
      if key.Some? && key.value in r {
        lines := lines[i := Setting(key.value, r[key.value])];
        found := found + {key.value};
      }
    }
    assert lines == Rewrite(was, r);
    assert was[..|was|] == was;
    var keys := r.Keys - found;
    if keys != {} {
      var sorted := Sorted(keys);
      lines := lines + ["", HEADER];
      forall j | 0 <= j < |sorted| ensures sorted[j] in r { assert sorted[j] in sorted && sorted[j] in keys; }
      for i := 0 to |sorted|
        invariant forall k :: k in sorted[..i] ==> k in r
        invariant lines == Rewrite(was, r) + ["", HEADER] + Settings(sorted[..i], r)
      {
        assert sorted[..i + 1][..i] == sorted[..i];
        lines := lines + [Setting(sorted[i], r[sorted[i]])];
      }
      assert sorted[..|sorted|] == sorted;
      assert lines == Rewrite(was, r) + (["", HEADER] + Settings(sorted, r));
    } else {
      assert lines + [] == lines;
    }
    return Join(lines);
  }

  lemma NothingFound(lines: seq<string>, r: Replacements)
    ensures Found(lines[..0], r) == {}
  {
  }

  lemma FoundSnoc(lines: seq<string>, r: Replacements, i: nat)
    requires i < |lines|
    ensures Found(lines[..i + 1], r)
         == Found(lines[..i], r)
             + (if KeyOf(lines[i]).Some? && KeyOf(lines[i]).value in r then {KeyOf(lines[i]).value} else {})
  {
    hide KeyOf;
    var before, after := lines[..i], lines[..i + 1];
    assert after[i] == lines[i];
    forall k ensures Sets(after, k) <==> Sets(before, k) || KeyOf(lines[i]) == Some(k) {
      if Sets(before, k) {
        var j :| 0 <= j < i && KeyOf(before[j]) == Some(k);
        assert KeyOf(after[j]) == Some(k);
      }
      if Sets(after, k) && KeyOf(lines[i]) != Some(k) {
        var j :| 0 <= j <= i && KeyOf(after[j]) == Some(k);
        assert KeyOf(before[j]) == Some(k);
      }
    }
  }

  // ------------------------------------------------------------ what it keeps

  predicate GoodReplacements(r: Replacements) {
    forall k :: k in r ==> GoodKey(k) && PlainValue(r[k])
  }

  lemma HeaderSetsNothing()
    ensures KeyOf(HEADER) == None && KeyOf("") == None && OneLine(HEADER) && OneLine("")
  {
    assert !Space(HEADER[0]) && HEADER[0] == '#';
    assert !Space(HEADER[|HEADER| - 1]);
    TrimmedStays(HEADER);
    assert forall i :: 0 <= i < |HEADER| ==> HEADER[i] != '\n';
  }

  lemma {:induction false} SettingsSet(keys: seq<string>, r: Replacements)
    requires GoodReplacements(r) && forall k :: k in keys ==> k in r
    ensures AllOneLine(Settings(keys, r))
    ensures Actual(Settings(keys, r)).Keys == (set k | k in keys)
    ensures forall k :: k in keys ==> Actual(Settings(keys, r))[k] == r[k]
    ensures forall i :: 0 <= i < |keys| ==> KeyOf(Settings(keys, r)[i]) == Some(keys[i])
  {
    hide KeyOf, ValueOf, Setting, GoodKey, PlainValue, OneLine;
    if keys != [] {
      var n := |keys| - 1;
      SettingsSet(keys[..n], r);
      SettingRoundTrip(keys[n], r[keys[n]]);
      var lines := Settings(keys, r);
      assert lines[..n] == Settings(keys[..n], r) && lines[n] == Setting(keys[n], r[keys[n]]);
      forall i | 0 <= i < |keys| ensures KeyOf(lines[i]) == Some(keys[i]) {
        if i < n { assert keys[..n][i] == keys[i]; }
      }
      assert keys == keys[..n] + [keys[n]];
    }
  }

  lemma AppendixSets(missing: set<string>, r: Replacements)
    requires GoodReplacements(r) && missing <= r.Keys
    ensures AllOneLine(Appendix(missing, r))
    ensures Actual(Appendix(missing, r)) == map k | k in missing :: r[k]
  {
    hide KeyOf, ValueOf, GoodReplacements, OneLine, Actual, Settings, Sorted;
    if missing != {} {
      var sorted := Sorted(missing);
      SettingsSet(sorted, r);
      HeaderSetsNothing();
      ActualOfHeader();
      BehindQuietLines(["", HEADER], Settings(sorted, r), sorted, missing, r);
      forall i | 0 <= i < |sorted| + 2 ensures OneLine(Appendix(missing, r)[i]) {
        if i >= 2 { assert Appendix(missing, r)[i] == Settings(sorted, r)[i - 2]; }
      }
    } else {
      ActualOfNothing();
    }
  }

  lemma BehindQuietLines(quiet: seq<string>, settings: seq<string>, keys: seq<string>, missing: set<string>,
                         r: Replacements)
    requires Actual(quiet) == map[] && missing <= r.Keys && forall k :: k in keys <==> k in missing
    requires Actual(settings).Keys == (set k | k in keys) && forall k :: k in keys ==> Actual(settings)[k] == r[k]
    ensures Actual(quiet + settings) == map k | k in missing :: r[k]
  {
    hide Actual;
    ActualAppend(quiet, settings);
    assert Actual(settings).Keys == missing;
  }

  lemma ActualOfNothing()
    ensures Actual([]) == map[]
  {
  }

  lemma ActualOfHeader()
    ensures Actual(["", HEADER]) == map[]
  {
    hide KeyOf, ValueOf;
    HeaderSetsNothing();
    assert ["", HEADER][..1] == [""] && [""][..0] == [];
    assert Actual([""]) == map[];
  }

  lemma RewrittenLine(line: string, r: Replacements)
    requires GoodReplacements(r) && OneLine(line)
    ensures OneLine(RewriteLine(line, r)) && KeyOf(RewriteLine(line, r)) == KeyOf(line)
    ensures KeyOf(line).Some? ==>
              ValueOf(RewriteLine(line, r)) == if KeyOf(line).value in r then r[KeyOf(line).value] else ValueOf(line)
  {
    if KeyOf(line).Some? && KeyOf(line).value in r { SettingRoundTrip(KeyOf(line).value, r[KeyOf(line).value]); }
  }

  /** `before` with the keys it has overridden by `r`. */
  function Overridden(before: Replacements, r: Replacements): Replacements {
    map k | k in before :: if k in r then r[k] else before[k]
  }

  lemma {:induction false} RewriteSets(lines: seq<string>, r: Replacements)
    requires GoodReplacements(r) && AllOneLine(lines)
    ensures AllOneLine(Rewrite(lines, r))
    ensures Actual(Rewrite(lines, r)) == Overridden(Actual(lines), r)
  {
    hide KeyOf, ValueOf, RewriteLine, GoodReplacements, OneLine;
    if lines != [] {
      var n := |lines| - 1;
      RewriteSets(lines[..n], r);
      assert Rewrite(lines, r)[..n] == Rewrite(lines[..n], r);
      RewrittenLine(lines[n], r);
      forall i | 0 <= i < |lines| ensures OneLine(Rewrite(lines, r)[i]) { RewrittenLine(lines[i], r); }
    }
  }

  lemma {:induction false} ActualHasWhatLinesSet(lines: seq<string>, key: string)
    ensures key in Actual(lines) <==> Sets(lines, key)
  {
    hide KeyOf, ValueOf;
    if lines != [] {
      var n := |lines| - 1;
      ActualHasWhatLinesSet(lines[..n], key);
      if Sets(lines, key) {
        var i :| 0 <= i < |lines| && KeyOf(lines[i]) == Some(key);
        if i < n { assert lines[..n][i] == lines[i]; }
      }
      if Sets(lines[..n], key) {
        var i :| 0 <= i < n && KeyOf(lines[..n][i]) == Some(key);
        assert KeyOf(lines[i]) == Some(key);
      }
    }
  }

  lemma LinesAreLines(data: string)
    ensures AllOneLine(Lines(data))
  {
    SplitGivesLines(Normalize(data));
  }

  lemma OutputIsLines(data: string, r: Replacements)
    requires GoodReplacements(r)
    ensures AllOneLine(Output(Lines(data), r)) && |Output(Lines(data), r)| > 0
  {
    hide KeyOf, GoodReplacements, OneLine, Actual, Lines, Rewrite, Appendix;
    LinesAreLines(data);
    RewriteSets(Lines(data), r);
    AppendixSets(Missing(Lines(data), r), r);
  }

  /** The map-update law, for any text at all: reading the replaced text back
      gives what was there before, overridden by the replacements. */
  lemma ReplacedReadsBack(data: string, r: Replacements)
    requires GoodReplacements(r)
    ensures Actual(Lines(Replaced(data, r))) == Actual(Lines(data)) + r
  {
    hide KeyOf, ValueOf, GoodReplacements, OneLine, Actual, Lines, Rewrite, Appendix, Join, Sets;
    var lines := Lines(data);
    OutputIsLines(data, r);
    ActualOfJoined(Output(lines, r));
    LinesAreLines(data);
    RewriteSets(lines, r);
    AppendixSets(Missing(lines, r), r);
    ActualAppend(Rewrite(lines, r), Appendix(Missing(lines, r), r));
    forall k ensures k in Actual(lines) <==> Sets(lines, k) { ActualHasWhatLinesSet(lines, k); }
  }

  /** Lines that set no replaced key keep their text and their place. */
  lemma OtherLinesStay(data: string, r: Replacements, i: nat)
    requires i < |Lines(data)| && (KeyOf(Lines(data)[i]).Some? ==> KeyOf(Lines(data)[i]).value !in r)
    ensures i < |Output(Lines(data), r)| && Output(Lines(data), r)[i] == Lines(data)[i]
  {
  }

  /** The printed text, line by line: a line that sets a replaced key becomes
      "key = value", every other one stays; replaced keys no line sets follow in
      order, under an empty line and the agent's own comment. */
  lemma PrintedText(data: string, r: Replacements)
    ensures var lines, out, keys := Lines(data), Output(Lines(data), r), Sorted(Missing(Lines(data), r));
            && Replaced(data, r) == Join(out)
            && |out| == |lines| + (if keys == [] then 0 else 2 + |keys|)
            && (forall k :: k in keys <==> k in r && !Sets(lines, k))
            && (forall i :: 0 <= i < |lines| ==>
                  out[i] == if KeyOf(lines[i]).Some? && KeyOf(lines[i]).value in r
                            then KeyOf(lines[i]).value + " = " + r[KeyOf(lines[i]).value] else lines[i])
            && (keys != [] ==> out[|lines|] == "" && out[|lines| + 1] == "# Managed by Azeroth Portal realm agent")
            && (forall i :: 0 <= i < |keys| ==>
                  keys[i] in r && out[|lines| + 2 + i] == keys[i] + " = " + r[keys[i]])
  {
    hide KeyOf, Lines, Join, Sorted;
    var lines, keys := Lines(data), Sorted(Missing(Lines(data), r));
    var out := Output(lines, r);
    MissingAreUnset(lines, r);
    forall i | 0 <= i < |keys| ensures keys[i] in r && out[|lines| + 2 + i] == keys[i] + " = " + r[keys[i]] {
      assert keys[i] in keys;
      SettingsAt(keys, r, i);
      assert out[|lines| + 2 + i] == Settings(keys, r)[i];
    }
  }

  lemma MissingAreUnset(lines: seq<string>, r: Replacements)
    ensures var keys := Sorted(Missing(lines, r));
            (forall k :: k in keys <==> k in r && !Sets(lines, k)) && (keys == [] <==> Missing(lines, r) == {})
  {
    hide Sets, Sorted;
    forall k ensures k in Missing(lines, r) <==> k in r && !Sets(lines, k) {
      assert k in Found(lines, r) <==> k in r && Sets(lines, k);
    }
  }

  /** Byte order: where two strings first differ, or the shorter one first. */
  lemma {:induction false} LessEqAt(a: string, b: string, i: nat)
    requires i <= |a| && i <= |b| && a[..i] == b[..i]
    ensures i < |a| && i < |b| && a[i] < b[i] ==> LessEq(a, b) && !LessEq(b, a)
    ensures i == |a| ==> LessEq(a, b)
    ensures i == |a| < |b| ==> !LessEq(b, a)
  {
    if i > 0 {
      assert a[0] == a[..i][0] == b[..i][0] == b[0];
      assert a[1..][..i - 1] == a[..i][1..] && b[1..][..i - 1] == b[..i][1..];
      LessEqAt(a[1..], b[1..], i - 1);
    }
  }

  // ------------------------------------------------------------ replacing twice

  /** Every line that is kept and is followed by another line of the output ends
      in no carriage return of its own. */
  ghost predicate Stable(data: string, keys: set<string>) {
    var lines := Lines(data);
    forall i :: 0 <= i < |lines| ==>
      (i == |lines| - 1 && forall k :: k in keys ==> Sets(lines, k))
      || (KeyOf(lines[i]).Some? && KeyOf(lines[i]).value in keys)
      || !EndsInCr(lines[i])
  }

  lemma OutputSetsEverything(lines: seq<string>, r: Replacements)
    requires GoodReplacements(r) && AllOneLine(lines)
    ensures forall k :: k in r ==> Sets(StripAll(Output(lines, r)), k)
  {
    var out := Output(lines, r);
    forall k | k in r ensures Sets(StripAll(out), k) {
      var i := SettingLine(lines, r, k);
      CrDoesNotMatter(out[i]);
      assert KeyOf(StripAll(out)[i]) == Some(k);
    }
  }

  lemma SettingLine(lines: seq<string>, r: Replacements, k: string) returns (i: nat)
    requires GoodReplacements(r) && AllOneLine(lines) && k in r
    ensures i < |Output(lines, r)| && KeyOf(Output(lines, r)[i]) == Some(k)
  {
    hide KeyOf, GoodReplacements, OneLine, RewriteLine, Appendix;
    if Sets(lines, k) {
      i :| 0 <= i < |lines| && KeyOf(lines[i]) == Some(k);
      RewrittenLine(lines[i], r);
    } else {
      var missing := Missing(lines, r);
      var j := AppendedLine(missing, r, k);
      i := |lines| + j;
    }
  }

  lemma AppendedLine(missing: set<string>, r: Replacements, k: string) returns (j: nat)
    requires GoodReplacements(r) && missing <= r.Keys && k in missing
    ensures j < |Appendix(missing, r)| && KeyOf(Appendix(missing, r)[j]) == Some(k)
  {
    hide KeyOf, GoodReplacements, Settings, Actual;
    var sorted := Sorted(missing);
    SettingsSet(sorted, r);
    assert k in sorted;
    var i :| 0 <= i < |sorted| && sorted[i] == k;
    j := 2 + i;
    assert Appendix(missing, r)[j] == Settings(sorted, r)[i];
  }

  /** Rewriting a line twice, with a carriage return lost in between. */
  lemma RewriteTwice(line: string, r1: Replacements, r2: Replacements)
    requires GoodReplacements(r1) && GoodReplacements(r2) && r1.Keys == r2.Keys && OneLine(line)
    ensures RewriteLine(RewriteLine(line, r1), r2) == RewriteLine(line, r2)
    ensures RewriteLine(StripCr(RewriteLine(line, r1)), r2) == RewriteLine(line, r2)
       <==> (KeyOf(line).Some? && KeyOf(line).value in r1) || !EndsInCr(line)
  {
    hide KeyOf, Setting, GoodReplacements, OneLine;
    RewrittenLine(line, r1);
    CrDoesNotMatter(RewriteLine(line, r1));
    if KeyOf(line).Some? && KeyOf(line).value in r1 {
      GoodSettingHasNoCr(r1, KeyOf(line).value);
    }
  }

  lemma GoodSettingHasNoCr(r: Replacements, key: string)
    requires GoodReplacements(r) && key in r
    ensures !EndsInCr(Setting(key, r[key]))
  {
  }

  /** The lines found when replaced text is replaced again. */
  lemma LinesOfReplaced(data: string, r: Replacements)
    requires GoodReplacements(r)
    ensures Lines(Replaced(data, r)) == StripAll(Output(Lines(data), r))
  {
    hide Lines, Output;
    OutputIsLines(data, r);
    NormalizeJoin(Output(Lines(data), r));
    SplitJoin(StripAll(Output(Lines(data), r)));
    LinesUnfold(Replaced(data, r));
  }

  lemma LinesUnfold(s: string)
    ensures Lines(s) == Split(Normalize(s))
  {
  }

  /** The second pass appends nothing and rewrites what the first one left. */
  lemma SecondPass(data: string, r1: Replacements, r2: Replacements)
    requires GoodReplacements(r1) && GoodReplacements(r2) && r1.Keys == r2.Keys
    ensures Output(Lines(Replaced(data, r1)), r2) == Rewrite(StripAll(Output(Lines(data), r1)), r2)
  {
    hide Lines, Rewrite, GoodReplacements, Replaced;
    LinesOfReplaced(data, r1);
    LinesAreLines(data);
    var again := StripAll(Output(Lines(data), r1));
    OutputSetsEverything(Lines(data), r1);
    assert Missing(again, r2) == {};
    assert Rewrite(again, r2) + [] == Rewrite(again, r2);
  }

  /** Replacing twice with the same keys is replacing once with the later values,
      and so replacing is idempotent, exactly when no kept line loses a carriage
      return on the way. */
  lemma OverwriteLaw(data: string, r1: Replacements, r2: Replacements)
    requires GoodReplacements(r1) && GoodReplacements(r2) && r1.Keys == r2.Keys
    ensures Replaced(Replaced(data, r1), r2) == Replaced(data, r2) <==> Stable(data, r1.Keys)
  {
    hide Lines, Output, GoodReplacements, Stable, StripAll, Rewrite;
    SecondPass(data, r1, r2);
    OutputIsLines(Replaced(data, r1), r2);
    OutputIsLines(data, r2);
    JoinInjective(Output(Lines(Replaced(data, r1)), r2), Output(Lines(data), r2));
    LinesAreLines(data);
    SameLinesIffStable(data, Lines(data), r1, r2);
  }

  lemma AppendixLength(missing: set<string>, r: Replacements)
    requires missing <= r.Keys
    ensures |Appendix(missing, r)| == if missing == {} then 0 else 2 + |missing|
  {
  }

  lemma SameFound(lines: seq<string>, r1: Replacements, r2: Replacements)
    requires r1.Keys == r2.Keys
    ensures Found(lines, r1) == Found(lines, r2)
  {
    hide Sets;
    assert forall k :: k in r1 <==> k in r2;
  }

  lemma MissingNothing(lines: seq<string>, r: Replacements)
    ensures Missing(lines, r) == {} <==> forall k :: k in r.Keys ==> Sets(lines, k)
  {
    hide Sets;
    if Missing(lines, r) == {} {
      forall k | k in r.Keys ensures Sets(lines, k) { assert k !in Missing(lines, r); }
    }
  }

  lemma {:induction false} SettingsAt(keys: seq<string>, r: Replacements, i: nat)
    requires (forall k :: k in keys ==> k in r) && i < |keys|
    ensures Settings(keys, r)[i] == Setting(keys[i], r[keys[i]])
  {
    var n := |keys| - 1;
    if i < n {
      SettingsAt(keys[..n], r, i);
    }
  }

  /** The second pass over an appended line. */
  lemma AppendixTwice(missing: set<string>, r1: Replacements, r2: Replacements, j: nat)
    requires GoodReplacements(r1) && GoodReplacements(r2) && r1.Keys == r2.Keys && missing <= r1.Keys
    requires j < |Appendix(missing, r1)|
    ensures j < |Appendix(missing, r2)|
    ensures var line := Appendix(missing, r1)[j];
            !EndsInCr(line) && RewriteLine(line, r2) == Appendix(missing, r2)[j]
  {
    hide KeyOf, ValueOf, OneLine, Sorted, Setting, Settings;
    var sorted := Sorted(missing);
    if j < 2 {
      HeaderSetsNothing();
      HeaderHasNoCr();
    } else {
      var key := sorted[j - 2];
      assert key in sorted && key in missing;
      SettingsAt(sorted, r1, j - 2);
      SettingsAt(sorted, r2, j - 2);
      SettingRoundTrip(key, r1[key]);
      GoodSettingHasNoCr(r1, key);
    }
  }

  lemma NoCrToLose(line: string)
    ensures !EndsInCr(line) ==> StripCr(line) == line
  {
  }

  lemma HeaderHasNoCr()
    ensures !EndsInCr(HEADER) && !EndsInCr("")
  {
    assert HEADER[|HEADER| - 1] == 't';
  }

  lemma SameLinesIffStable(data: string, lines: seq<string>, r1: Replacements, r2: Replacements)
    requires GoodReplacements(r1) && GoodReplacements(r2) && r1.Keys == r2.Keys && lines == Lines(data)
    requires AllOneLine(lines)
    ensures Rewrite(StripAll(Output(lines, r1)), r2) == Output(lines, r2) <==> Stable(data, r1.Keys)
  {
    hide Lines, GoodReplacements, KeyOf, RewriteLine, StripCr, EndsInCr, Found, OneLine, Appendix;
    var n := |lines|;
    var missing := Missing(lines, r1);
    var one, two := Output(lines, r1), Output(lines, r2);
    var twice := Rewrite(StripAll(one), r2);
    AppendixLength(missing, r1);
    AppendixLength(missing, r2);
    assert Found(lines, r1) == Found(lines, r2) by { SameFound(lines, r1, r2); }
    assert |one| == |two| == |twice|;
    forall i | 0 <= i < n
      ensures twice[i] == two[i] <==>
                (i == n - 1 && missing == {}) || (KeyOf(lines[i]).Some? && KeyOf(lines[i]).value in r1.Keys)
                    || !EndsInCr(lines[i])
    {
      RewriteTwice(lines[i], r1, r2);
      assert one[i] == RewriteLine(lines[i], r1) && two[i] == RewriteLine(lines[i], r2);
      assert twice[i] == RewriteLine(StripAll(one)[i], r2);
      if i == n - 1 && missing == {} { assert |one| == n; }
    }
    forall i | n <= i < |one| ensures twice[i] == two[i] {
      assert one[i] == Appendix(missing, r1)[i - n] && two[i] == Appendix(missing, r2)[i - n];
      AppendixTwice(missing, r1, r2, i - n);
      NoCrToLose(one[i]);
      assert twice[i] == RewriteLine(StripAll(one)[i], r2);
    }
    MissingNothing(lines, r1);
  }

  /** Text without a doubled carriage return at a line end, and without one at the
      very end, is stable for any keys. */
  lemma CleanTextIsStable(data: string, keys: set<string>)
    requires var raw := Split(data);
             && (forall i :: 0 <= i < |raw| - 1 ==> !(EndsInCr(raw[i]) && EndsInCr(StripCr(raw[i]))))
             && !EndsInCr(raw[|raw| - 1])
    ensures Stable(data, keys)
  {
    hide KeyOf, Sets;
    var raw := Split(data);
    SplitGivesLines(data);
    JoinSplit(data);
    NormalizeJoin(raw);
    SplitJoin(StripAll(raw));
    assert Lines(data) == StripAll(raw);
    forall i | 0 <= i < |raw| ensures !EndsInCr(Lines(data)[i]) {
      if i < |raw| - 1 { assert Lines(data)[i] == StripCr(raw[i]); }
    }
  }
}
