/** Configuration text: lines, keys and values, as the realm agent's printer and
    parser see them. */
module ConfigText {
  import opened Common

  /** White space as unicode.IsSpace has it. */
  predicate Space(c: char) {
    || '\t' <= c <= '\r' || c == ' ' || c == '\U{0085}' || c == '\U{00A0}' || c == '\U{1680}'
    || '\U{2000}' <= c <= '\U{200A}' || c == '\U{2028}' || c == '\U{2029}' || c == '\U{202F}' || c == '\U{205F}'
    || c == '\U{3000}'
  }

  function TrimLeft(s: string): string {
    if s != "" && Space(s[0]) then TrimLeft(s[1..]) else s
  }

  function TrimRight(s: string): string {
    if s != "" && Space(s[|s| - 1]) then TrimRight(s[..|s| - 1]) else s
  }

  /** strings.TrimSpace. */
  function Trim(s: string): string { TrimRight(TrimLeft(s)) }

  predicate Trimmed(s: string) { s == "" || (!Space(s[0]) && !Space(s[|s| - 1])) }

  /** Where `c` first is, or the length. */
  function Find(s: string, c: char): (i: nat)
    ensures i <= |s| && (i < |s| ==> s[i] == c)
    ensures forall j :: 0 <= j < i ==> s[j] != c
  {
    if s == "" || s[0] == c then 0 else Find(s[1..], c) + 1
  }

  // ------------------------------------------------------------ lines

  /** strings.ReplaceAll(s, "\r\n", "\n"): one pass, left to right. */
  function Normalize(s: string): string {
    if s == "" then ""
    else if |s| >= 2 && s[0] == '\r' && s[1] == '\n' then "\n" + Normalize(s[2..])
    else [s[0]] + Normalize(s[1..])
  }

  function Split(s: string): (lines: seq<string>)
    ensures |lines| > 0
  {
    if s == "" then [""]
    else if s[0] == '\n' then [""] + Split(s[1..])
    else
      var rest := Split(s[1..]);
      [[s[0]] + rest[0]] + rest[1..]
  }

  function Join(lines: seq<string>): string
    requires |lines| > 0
  {
    if |lines| == 1 then lines[0] else lines[0] + "\n" + Join(lines[1..])
  }

  predicate OneLine(s: string) { '\n' !in s }

  ghost predicate AllOneLine(lines: seq<string>) { forall i :: 0 <= i < |lines| ==> OneLine(lines[i]) }

  lemma {:induction false} SplitGivesLines(s: string)
    ensures AllOneLine(Split(s))
  {
    if s != "" { SplitGivesLines(s[1..]); }
  }

  lemma {:induction false} SplitPrefix(a: string, b: string)
    requires OneLine(a)
    ensures Split(a + b) == [a + Split(b)[0]] + Split(b)[1..]
  {
    if a == "" {
      assert a + b == b && a + Split(b)[0] == Split(b)[0];
      assert [Split(b)[0]] + Split(b)[1..] == Split(b);
    } else {
      SplitPrefix(a[1..], b);
      assert (a + b)[1..] == a[1..] + b && (a + b)[0] == a[0];
      assert [a[0]] + (a[1..] + Split(b)[0]) == a + Split(b)[0];
      assert ([a[1..] + Split(b)[0]] + Split(b)[1..])[1..] == Split(b)[1..];
    }
  }

  lemma {:induction false} SplitJoin(lines: seq<string>)
    requires |lines| > 0 && AllOneLine(lines)
    ensures Split(Join(lines)) == lines
  {
    if |lines| == 1 {
      SplitPrefix(lines[0], "");
      assert lines[0] + "" == lines[0];
    } else {
      SplitJoin(lines[1..]);
      var rest := "\n" + Join(lines[1..]);
      assert rest[1..] == Join(lines[1..]);
      SplitPrefix(lines[0], rest);
      assert lines[0] + "\n" + Join(lines[1..]) == lines[0] + rest;
      assert Split(rest) == [""] + lines[1..] && Split(rest)[1..] == lines[1..];
      assert lines[0] + "" == lines[0] && [lines[0]] + lines[1..] == lines;
    }
  }

  lemma {:induction false} JoinSplit(s: string)
    ensures Join(Split(s)) == s
  {
    if s != "" {
      var rest := Split(s[1..]);
      JoinSplit(s[1..]);
      if s[0] == '\n' {
        assert Split(s)[1..] == rest;
        assert "" + "\n" + s[1..] == s;
      } else {
        assert Split(s)[1..] == rest[1..];
        JoinPrefix([s[0]], rest);
        assert [s[0]] + s[1..] == s;
      }
    }
  }

  lemma JoinPrefix(a: string, lines: seq<string>)
    requires |lines| > 0
    ensures Join([a + lines[0]] + lines[1..]) == a + Join(lines)
  {
    var longer := [a + lines[0]] + lines[1..];
    if |lines| > 1 {
      JoinCons(longer);
      JoinCons(lines);
      assert longer[1..] == lines[1..];
      Regroup(a, lines[0], "\n", Join(lines[1..]));
    }
  }

  lemma JoinCons(lines: seq<string>)
    requires |lines| > 1
    ensures Join(lines) == lines[0] + "\n" + Join(lines[1..])
  {
  }

  lemma Regroup(a: string, b: string, c: string, d: string)
    ensures a + b + c + d == a + (b + c + d)
  {
  }

  /** Different lines make different text. */
  lemma JoinInjective(one: seq<string>, two: seq<string>)
    requires |one| > 0 && |two| > 0 && AllOneLine(one) && AllOneLine(two)
    ensures Join(one) == Join(two) <==> one == two
  {
    SplitJoin(one);
    SplitJoin(two);
  }

  // ------------------------------------------------------------ carriage returns

  predicate EndsInCr(line: string) { line != "" && line[|line| - 1] == '\r' }

  function StripCr(line: string): string {
    if EndsInCr(line) then line[..|line| - 1] else line
  }

  /** Every line but the last loses one trailing carriage return. */
  function StripAll(lines: seq<string>): (stripped: seq<string>)
    ensures |stripped| == |lines|
  {
    seq(|lines|, i requires 0 <= i < |lines| => if i < |lines| - 1 then StripCr(lines[i]) else lines[i])
  }

  lemma NormalizeStep(c: char, rest: string)
    requires !(c == '\r' && rest != "" && rest[0] == '\n')
    ensures Normalize([c] + rest) == [c] + Normalize(rest)
  {
    assert ([c] + rest)[1..] == rest;
  }

  lemma NormalizeCrLf(rest: string)
    ensures Normalize("\r\n" + rest) == "\n" + Normalize(rest)
  {
    assert ("\r\n" + rest)[2..] == rest;
  }

  lemma {:induction false} NormalizeLine(a: string, b: string)
    requires OneLine(a)
    ensures Normalize(a + "\n" + b) == StripCr(a) + "\n" + Normalize(b)
  {
    hide Normalize;
    if a == "" {
      NormalizeStep('\n', b);
      assert a + "\n" + b == ['\n'] + b;
    } else if a == "\r" {
      NormalizeCrLf(b);
      assert a + "\n" + b == "\r\n" + b;
    } else {
      var rest := a[1..] + "\n" + b;
      assert a + "\n" + b == [a[0]] + rest;
      assert rest[0] == if |a| > 1 then a[1] else '\n';
      NormalizeStep(a[0], rest);
      NormalizeLine(a[1..], b);
      StripTail(a);
      assert [a[0]] + (StripCr(a[1..]) + "\n" + Normalize(b)) == [a[0]] + StripCr(a[1..]) + "\n" + Normalize(b);
    }
  }

  lemma StripTail(a: string)
    requires a != "" && a != "\r"
    ensures [a[0]] + StripCr(a[1..]) == StripCr(a)
  {
  }

  lemma {:induction false} NormalizeLast(a: string)
    requires OneLine(a)
    ensures Normalize(a) == a
  {
    if a != "" { NormalizeLast(a[1..]); }
  }

  lemma {:induction false} NormalizeJoin(lines: seq<string>)
    requires |lines| > 0 && AllOneLine(lines)
    ensures Normalize(Join(lines)) == Join(StripAll(lines)) && AllOneLine(StripAll(lines))
  {
    if |lines| == 1 {
      NormalizeLast(lines[0]);
      assert StripAll(lines) == lines;
    } else {
      NormalizeJoin(lines[1..]);
      NormalizeLine(lines[0], Join(lines[1..]));
      assert StripAll(lines)[1..] == StripAll(lines[1..]);
    }
  }

  // ------------------------------------------------------------ one line

  /** The line without outer blanks, unless it is empty or a comment. */
  predicate IsSetting(trimmed: string) { trimmed != "" && trimmed[0] != '#' && trimmed[0] != ';' && '=' in trimmed }

  /** The key a line sets, if it sets one. */
  function KeyOf(line: string): Option<string> {
    var trimmed := Trim(line);
    if !IsSetting(trimmed) then None else Some(Trim(trimmed[..Find(trimmed, '=')]))
  }

  /** What stands after the first '=' up to a '#'. */
  function ValueOf(line: string): string
    requires KeyOf(line).Some?
  {
    var trimmed := Trim(line);
    HasFirst(trimmed, '=');
    var value := trimmed[Find(trimmed, '=') + 1..];
    Trim(value[..Find(value, '#')])
  }

  lemma HasFirst(s: string, c: char)
    requires c in s
    ensures Find(s, c) < |s|
  {
    assert s[..|s|] == s;
  }

  function Setting(key: string, value: string): string { key + " = " + value }

  predicate GoodKey(key: string) {
    key != "" && Trimmed(key) && '=' !in key && OneLine(key) && key[0] != '#' && key[0] != ';'
  }

  predicate PlainValue(value: string) { Trimmed(value) && '#' !in value && OneLine(value) }

  lemma {:induction false} TrimLeftSpaces(s: string, t: string)
    requires forall i :: 0 <= i < |s| ==> Space(s[i])
    ensures TrimLeft(s + t) == TrimLeft(t)
  {
    if s == "" {
      assert s + t == t;
    } else {
      assert (s + t)[1..] == s[1..] + t;
      TrimLeftSpaces(s[1..], t);
    }
  }

  lemma TrimmedStays(s: string)
    requires Trimmed(s)
    ensures Trim(s) == s
  {
  }

  lemma FindAt(s: string, c: char, i: nat)
    requires i < |s| && s[i] == c && c !in s[..i]
    ensures Find(s, c) == i
  {
  }

  lemma FindNone(s: string, c: char)
    requires c !in s
    ensures Find(s, c) == |s|
  {
  }

  lemma KeyAndValue(line: string, trimmed: string, i: nat, key: string, value: string)
    requires Trim(line) == trimmed && i < |trimmed| && trimmed[i] == '=' && '=' !in trimmed[..i]
    requires trimmed[0] != '#' && trimmed[0] != ';' && Trim(trimmed[..i]) == key
    requires var after := trimmed[i + 1..]; Trim(after[..Find(after, '#')]) == value
    ensures KeyOf(line) == Some(key) && ValueOf(line) == value
  {
    hide Trim;
    FindAt(trimmed, '=', i);
  }

  /** Printing a setting and parsing it are inverse. */
  lemma SettingRoundTrip(key: string, value: string)
    requires GoodKey(key) && PlainValue(value)
    ensures KeyOf(Setting(key, value)) == Some(key) && ValueOf(Setting(key, value)) == value
    ensures OneLine(Setting(key, value))
  {
    hide Trim, Find, KeyOf, ValueOf, PlainValue;
    var trimmed := if value == "" then key + " =" else Setting(key, value);
    TrimSetting(key, value);
    TrimTrailing(key, " ");
    TrimmedStays(key);
    ReadValue(value, if value == "" then "" else " " + value);
    SettingParts(key, value, trimmed);
    KeyAndValue(Setting(key, value), trimmed, |key| + 1, key, value);
    SettingIsOneLine(key, value);
  }

  lemma SettingParts(key: string, value: string, trimmed: string)
    requires GoodKey(key) && trimmed == if value == "" then key + " =" else Setting(key, value)
    ensures |trimmed| >= |key| + 2 && trimmed[..|key| + 1] == key + " " && trimmed[|key| + 1] == '='
    ensures trimmed[0] == key[0] && '=' !in trimmed[..|key| + 1]
    ensures trimmed[|key| + 2..] == if value == "" then "" else " " + value
  {
    assert trimmed[..|key| + 1] == key + " ";
  }

  lemma SettingIsOneLine(key: string, value: string)
    requires OneLine(key) && PlainValue(value)
    ensures OneLine(Setting(key, value))
  {
  }

  /** What ValueOf reads after the '='. */
  lemma ReadValue(value: string, after: string)
    requires PlainValue(value) && after == if value == "" then "" else " " + value
    ensures Trim(after[..Find(after, '#')]) == value
  {
    FindNone(after, '#');
    assert after[..|after|] == after;
    if value != "" {
      TrimLeftSpaces(" ", value);
      TrimmedStays(value);
    }
  }

  lemma TrimSetting(key: string, value: string)
    requires GoodKey(key) && PlainValue(value)
    ensures Trim(Setting(key, value)) == if value == "" then key + " =" else Setting(key, value)
  {
    var line := Setting(key, value);
    assert line[0] == key[0];
    if value == "" {
      assert line == key + " =" + " ";
      TrimTrailing(key + " =", " ");
      TrimmedStays(key + " =");
    } else {
      assert line[|line| - 1] == value[|value| - 1];
      TrimmedStays(line);
    }
  }

  /** One blank at the end does not matter. */
  lemma TrimTrailing(s: string, blank: string)
    requires |blank| == 1 && Space(blank[0])
    ensures Trim(s + blank) == Trim(s)
  {
    TrimLeftTrailing(s, blank);
    var left := TrimLeft(s);
    if left != "" {
      assert (left + blank)[..|left|] == left;
    }
  }

  lemma {:induction false} TrimLeftTrailing(s: string, blank: string)
    requires |blank| == 1 && Space(blank[0])
    ensures TrimLeft(s + blank) == if TrimLeft(s) == "" then "" else TrimLeft(s) + blank
  {
    if s == "" {
      assert s + blank == blank && blank[1..] == "";
    } else {
      assert (s + blank)[1..] == s[1..] + blank;
      if Space(s[0]) { TrimLeftTrailing(s[1..], blank); }
    }
  }

  /** A trailing carriage return changes neither key nor value. */
  lemma CrDoesNotMatter(line: string)
    ensures Trim(StripCr(line)) == Trim(line) && KeyOf(StripCr(line)) == KeyOf(line)
    ensures KeyOf(line).Some? ==> ValueOf(StripCr(line)) == ValueOf(line)
  {
    if EndsInCr(line) {
      var s := line[..|line| - 1];
      assert line == s + "\r";
      TrimTrailing(s, "\r");
    }
  }

  // ------------------------------------------------------------ any line

  ghost predicate Blank(s: string) { forall i :: 0 <= i < |s| ==> Space(s[i]) }

  lemma {:induction false} TrimRightSpaces(s: string, t: string)
    requires Blank(t)
    ensures TrimRight(s + t) == TrimRight(s)
  {
    if t == "" {
      assert s + t == s;
    } else {
      var init := t[..|t| - 1];
      assert (s + t)[..|s + t| - 1] == s + init;
      TrimRightSpaces(s, init);
    }
  }

  lemma {:induction false} TrimRightKeeps(s: string, t: string)
    requires s != "" && !Space(s[|s| - 1])
    ensures TrimRight(s + t) == s + TrimRight(t)
  {
    if t == "" {
      assert s + t == s;
    } else {
      var init := t[..|t| - 1];
      assert (s + t)[..|s + t| - 1] == s + init && (s + t)[|s + t| - 1] == t[|t| - 1];
      if Space(t[|t| - 1]) { TrimRightKeeps(s, init); }
    }
  }

  /** Blanks around a text that has none of its own. */
  lemma TrimAround(pre: string, s: string, post: string)
    requires Blank(pre) && Blank(post) && Trimmed(s)
    ensures Trim(pre + s + post) == s
  {
    assert pre + s + post == pre + (s + post);
    TrimLeftSpaces(pre, s + post);
    if s == "" {
      TrimLeftSpaces(post, "");
      assert post + "" == post && s + post == post;
    } else {
      assert TrimLeft(s + post) == s + post;
      TrimRightSpaces(s, post);
    }
  }

  lemma FindInFront(s: string, c: char, t: string)
    requires c !in s && t != "" && t[0] == c
    ensures Find(s + t, c) == |s| && (s + t)[..|s|] == s && (s + t)[|s| + 1..] == t[1..]
  {
    assert (s + t)[..|s|] == s;
    FindAt(s + t, c, |s|);
  }

  /** What a value's text reads as: up to a '#', without outer blanks. */
  lemma ValueReads(gap: string, value: string, post: string, comment: string)
    requires Blank(gap) && Blank(post) && PlainValue(value) && (comment == "" || comment[0] == '#')
    ensures var after := TrimRight(gap + value + post + comment); Trim(after[..Find(after, '#')]) == value
  {
    var text := gap + value + post;
    assert '#' !in text;
    TrimAround(gap, value, post);
    if comment == "" {
      assert text + comment == text;
      TrimTwice(text);
      FindNone(TrimRight(text), '#');
      assert TrimRight(text)[..|TrimRight(text)|] == TrimRight(text);
    } else {
      TrimRightAtLast(text, comment);
      FindInFront(text, '#', TrimRight(comment));
    }
  }

  lemma {:induction false} TrimRightPart(s: string)
    ensures exists n :: 0 <= n <= |s| && TrimRight(s) == s[..n]
  {
    if s != "" && Space(s[|s| - 1]) {
      TrimRightPart(s[..|s| - 1]);
      var n :| 0 <= n <= |s| - 1 && TrimRight(s[..|s| - 1]) == s[..|s| - 1][..n];
      assert s[..|s| - 1][..n] == s[..n];
    } else {
      assert s[..|s|] == s;
    }
  }

  lemma TrimTwice(s: string)
    ensures Trim(TrimRight(s)) == Trim(s) && forall c :: c !in s ==> c !in TrimRight(s)
  {
    TrimRightPart(s);
    var n :| 0 <= n <= |s| && TrimRight(s) == s[..n];
    TrimRightDrops(s, n);
    assert s == s[..n] + s[n..];
    TrimTail(s[..n], s[n..]);
  }

  lemma {:induction false} TrimRightDrops(s: string, n: nat)
    requires n <= |s| && TrimRight(s) == s[..n]
    ensures Blank(s[n..])
  {
    if n < |s| {
      var init := s[..|s| - 1];
      assert TrimRight(s) == TrimRight(init) && init[..n] == s[..n];
      TrimRightDrops(init, n);
      assert forall i :: 0 <= i < |s| - n - 1 ==> s[n..][i] == init[n..][i];
    }
  }

  lemma {:induction false} TrimTail(s: string, blanks: string)
    requires Blank(blanks)
    ensures Trim(s + blanks) == Trim(s)
  {
    if blanks == "" {
      assert s + blanks == s;
    } else {
      var init := blanks[..|blanks| - 1];
      var last := [blanks[|blanks| - 1]];
      assert s + blanks == (s + init) + last;
      TrimTrailing(s + init, last);
      TrimTail(s, init);
    }
  }

  lemma TrimRightAtLast(text: string, comment: string)
    requires comment != "" && comment[0] == '#'
    ensures TrimRight(text + comment) == text + TrimRight(comment) && TrimRight(comment) != ""
        && TrimRight(comment)[0] == '#'
  {
    hide TrimRight;
    var rest := comment[1..];
    assert comment == "#" + rest && text + comment == (text + "#") + rest;
    TrimRightKeeps("#", rest);
    TrimRightKeeps(text + "#", rest);
    assert text + "#" + TrimRight(rest) == text + ("#" + TrimRight(rest));
  }

  /** Any line that sets `key` to `value`, with blanks wherever they may stand and
      a comment behind, is read so. */
  lemma LineReads(pre: string, key: string, mid: string, gap: string, value: string, post: string, comment: string)
    requires Blank(pre) && Blank(mid) && Blank(gap) && Blank(post) && GoodKey(key) && PlainValue(value)
    requires comment == "" || comment[0] == '#'
    ensures var line := pre + key + mid + "=" + (gap + value + post + comment);
            KeyOf(line) == Some(key) && ValueOf(line) == value
  {
    var tail := gap + value + post + comment;
    var head := key + mid + "=";
    var line := pre + key + mid + "=" + tail;
    assert line == pre + (head + tail);
    TrimLeftSpaces(pre, head + tail);
    assert head[0] == key[0] && (head + tail)[0] == key[0];
    assert TrimLeft(head + tail) == head + tail;
    TrimRightKeeps(head, tail);
    var trimmed := head + TrimRight(tail);
    assert trimmed == (key + mid) + ("=" + TrimRight(tail));
    FindInFront(key + mid, '=', "=" + TrimRight(tail));
    assert '=' !in key + mid;
    TrimAround("", key, mid);
    assert "" + key + mid == key + mid;
    ValueReads(gap, value, post, comment);
    assert trimmed[..|key + mid|] == key + mid && trimmed[|key + mid| + 1..] == TrimRight(tail);
    KeyAndValue(line, trimmed, |key + mid|, key, value);
  }

  /** Blank lines, comments and lines without '=' set nothing. */
  lemma QuietLine(pre: string, rest: string)
    requires Blank(pre) && (rest == "" || rest[0] == '#' || rest[0] == ';' || '=' !in pre + rest)
    ensures KeyOf(pre + rest) == None
  {
    TrimLeftSpaces(pre, rest);
    if rest == "" {
    } else if rest[0] == '#' || rest[0] == ';' {
      assert TrimLeft(rest) == rest;
      TrimRightKeeps([rest[0]], rest[1..]);
      assert rest == [rest[0]] + rest[1..];
    } else {
      NotMadeUp(pre + rest, '=');
    }
  }

  lemma {:induction false} TrimLeftPart(s: string)
    ensures exists n :: 0 <= n <= |s| && TrimLeft(s) == s[n..]
  {
    if s != "" && Space(s[0]) {
      TrimLeftPart(s[1..]);
      var n :| 0 <= n <= |s| - 1 && TrimLeft(s[1..]) == s[1..][n..];
      assert s[1..][n..] == s[n + 1..];
    } else {
      assert s[0..] == s;
    }
  }

  lemma NotMadeUp(s: string, c: char)
    requires c !in s
    ensures c !in Trim(s)
  {
    TrimLeftPart(s);
    TrimTwice(TrimLeft(s));
  }

  // ------------------------------------------------------------ the parser

  /** What the lines set; later lines win. */
  function Actual(lines: seq<string>): map<string, string> {
    if lines == [] then map[]
    else
      var line := lines[|lines| - 1];
      var before := Actual(lines[..|lines| - 1]);
      if KeyOf(line).Some? then before[KeyOf(line).value := ValueOf(line)] else before
  }

  function Lines(data: string): (lines: seq<string>)
    ensures |lines| > 0
  {
    Split(Normalize(data))
  }

  lemma {:induction false} ActualAppend(one: seq<string>, two: seq<string>)
    ensures Actual(one + two) == Actual(one) + Actual(two)
  {
    if two == [] {
      assert one + two == one;
    } else {
      assert (one + two)[..|one + two| - 1] == one + two[..|two| - 1];
      ActualAppend(one, two[..|two| - 1]);
    }
  }

  lemma {:induction false} ActualIgnoresCr(one: seq<string>, two: seq<string>)
    requires |one| == |two| && forall i :: 0 <= i < |one| ==> two[i] == one[i] || two[i] == StripCr(one[i])
    ensures Actual(one) == Actual(two)
  {
    if one != [] {
      var n := |one| - 1;
      CrDoesNotMatter(one[n]);
      ActualIgnoresCr(one[..n], two[..n]);
    }
  }

  /** Reading text back gives what its lines say, whatever carriage returns are
      lost on the way. */
  lemma ActualOfJoined(lines: seq<string>)
    requires |lines| > 0 && AllOneLine(lines)
    ensures Actual(Lines(Join(lines))) == Actual(lines)
  {
    NormalizeJoin(lines);
    SplitJoin(StripAll(lines));
    ActualIgnoresCr(lines, StripAll(lines));
  }
}
