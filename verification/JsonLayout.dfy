/** `layout` of the edit oracle (fuzz/fuzz_targets/json_edit.rs:112-122), on ASCII text. */
module JsonLayout {
  import opened Common

  function Layout(compact: string, indent: string): string {
    if indent == "" || |compact| < 3 || (compact[0] != '[' && compact[0] != '{') then compact
    else
      var n := |compact|;
      var items := Split(compact[1..n - 1], ',');
      Join([compact[..1], indent + Join(items, ",\n" + indent), compact[n - 1..]], "\n")
  }

  predicate IsSpace(c: char) { c == ' ' || c == '\t' || c == '\n' || c == '\r' }

  predicate Blank(s: string) { forall i :: 0 <= i < |s| ==> IsSpace(s[i]) }

  /** `s` without its white space. */
  function Dense(s: string): string {
    if s == "" then "" else (if IsSpace(s[0]) then "" else [s[0]]) + Dense(s[1..])
  }

  lemma DenseCons(c: char, s: string)
    ensures Dense([c] + s) == (if IsSpace(c) then "" else [c]) + Dense(s)
  {
    assert ([c] + s)[1..] == s;
  }

  lemma {:induction false} DenseAppend(s: string, t: string)
    ensures Dense(s + t) == Dense(s) + Dense(t)
  {
    if s == "" {
      assert s + t == t;
    } else {
      DenseAppend(s[1..], t);
      assert s + t == [s[0]] + (s[1..] + t) && s == [s[0]] + s[1..];
      DenseCons(s[0], s[1..] + t);
      DenseCons(s[0], s[1..]);
    }
  }

  lemma {:induction false} DenseBlank(s: string)
    requires Blank(s)
    ensures Dense(s) == ""
  {
    if s != "" {
      DenseBlank(s[1..]);
    }
  }

  predicate Same(s: string, t: string) { Dense(s) == Dense(t) }

  lemma SameAppend(s: string, s': string, t: string, t': string)
    requires Same(s, s') && Same(t, t')
    ensures Same(s + t, s' + t')
  {
    DenseAppend(s, t);
    DenseAppend(s', t');
  }

  /** Joining with more white space. */
  lemma {:induction false} JoinSame(parts: seq<string>, parts': seq<string>, sep: string, sep': string)
    requires |parts| == |parts'| > 0 && Same(sep, sep')
    requires forall i :: 0 <= i < |parts| ==> Same(parts[i], parts'[i])
    ensures Same(Join(parts, sep), Join(parts', sep'))
  {
    if |parts| > 1 {
      JoinSame(parts[1..], parts'[1..], sep, sep');
      SameAppend(parts[0], parts'[0], sep, sep');
      SameAppend(parts[0] + sep, parts'[0] + sep', Join(parts[1..], sep), Join(parts'[1..], sep'));
    }
  }

  lemma JoinThree(a: string, b: string, c: string)
    ensures Join([a, b, c], "") == a + b + c
  {
    assert [a, b, c][1..] == [b, c] && [b, c][1..] == [c];
    assert Join([b, c], "") == b + "" + Join([c], "");
    assert Join([a, b, c], "") == a + "" + Join([b, c], "");
    assert a + "" == a && b + "" == b && a + (b + c) == a + b + c;
  }

  lemma Separator(indent: string)
    requires Blank(indent)
    ensures Same(",\n" + indent, ",") && Same("\n", "") && Same(indent, "")
  {
    assert Blank("\n" + indent);
    DenseBlank("\n");
    DenseBlank(indent);
    DenseBlank("\n" + indent);
    assert ",\n" + indent == "," + ("\n" + indent) && "," + "" == ",";
    SameAppend(",", ",", "\n" + indent, "");
  }

  /** Laying out changes nothing but white space, for every text and blank indent. */
  lemma LayoutAddsSpace(compact: string, indent: string)
    requires Blank(indent)
    ensures Dense(Layout(compact, indent)) == Dense(compact)
  {
    if Layout(compact, indent) != compact {
      var n := |compact|;
      var open, body, close := compact[..1], compact[1..n - 1], compact[n - 1..];
      var items := Split(body, ',');
      Separator(indent);
      JoinSame(items, items, ",\n" + indent, ",");
      JoinSplit(body, ',');
      SameAppend(indent, "", Join(items, ",\n" + indent), body);
      assert "" + body == body;
      JoinSame([open, indent + Join(items, ",\n" + indent), close], [open, body, close], "\n", "");
      JoinThree(open, body, close);
      assert compact == open + body + close;
    }
  }

  /** The lines of the pieces: one each, indented, with a comma but for the last. */
  function PieceLines(items: seq<string>, indent: string): seq<string> {
    seq(|items|, i requires 0 <= i < |items| => indent + items[i] + if i < |items| - 1 then "," else "")
  }

  lemma {:induction false} JoinedLines(items: seq<string>, indent: string, rest: string)
    requires items != [] && '\n' !in indent && forall i :: 0 <= i < |items| ==> '\n' !in items[i]
    ensures Split(indent + Join(items, ",\n" + indent) + "\n" + rest, '\n') == PieceLines(items, indent) + Split(rest, '\n')
    decreases |items|
  {
    var first := indent + items[0];
    if |items| == 1 {
      SplitFirst(first, '\n', rest);
      assert first + "" == first;
      assert PieceLines(items, indent) == [first];
    } else {
      var more := indent + Join(items[1..], ",\n" + indent) + "\n" + rest;
      JoinedLines(items[1..], indent, rest);
      OneMoreLine(indent, items[0], Join(items[1..], ",\n" + indent), rest);
      SplitFirst(first + ",", '\n', more);
      assert PieceLines(items, indent) == [first + ","] + PieceLines(items[1..], indent);
    }
  }

  lemma OneMoreLine(indent: string, item: string, more: string, rest: string)
    ensures indent + (item + (",\n" + indent) + more) + "\n" + rest
         == (indent + item + ",") + "\n" + (indent + more + "\n" + rest)
  {
    assert ",\n" + indent == "," + ("\n" + indent);
  }

  /** A laid out text has its bracket, each piece and the closing bracket on lines of their
      own, each piece behind the indent. */
  lemma LayoutLines(compact: string, indent: string)
    requires '\n' !in compact && '\n' !in indent
    requires indent != "" && |compact| >= 3 && (compact[0] == '[' || compact[0] == '{')
    ensures var n := |compact|;
      Split(Layout(compact, indent), '\n')
      == [compact[..1]] + PieceLines(Split(compact[1..n - 1], ','), indent) + [compact[n - 1..]]
  {
    var n := |compact|;
    var open, body, close := compact[..1], compact[1..n - 1], compact[n - 1..];
    var items := Split(body, ',');
    JoinSplit(body, ',');
    PiecesWithin(items, ",", '\n');
    var mid := indent + Join(items, ",\n" + indent);
    assert [open, mid, close][1..] == [mid, close] && [mid, close][1..] == [close];
    assert Join([mid, close], "\n") == mid + "\n" + close;
    assert open + "\n" + Join([mid, close], "\n") == Join([open, mid, close], "\n");
    assert Layout(compact, indent) == open + "\n" + (mid + "\n" + close);
    SplitFirst(open, '\n', mid + "\n" + close);
    JoinedLines(items, indent, close);
    SplitNone(close, '\n');
  }

  lemma {:induction false} PiecesWithin(parts: seq<string>, sep: string, c: char)
    requires parts != [] && c !in Join(parts, sep)
    ensures forall i :: 0 <= i < |parts| ==> c !in parts[i]
  {
    if |parts| > 1 {
      PiecesWithin(parts[1..], sep, c);
    }
  }

  /** Other texts, and any text without an indent, are left as they are. */
  lemma NotLaidOut(compact: string, indent: string)
    requires indent == "" || |compact| < 3 || (compact[0] != '[' && compact[0] != '{')
    ensures Layout(compact, indent) == compact
  {
  }
}
