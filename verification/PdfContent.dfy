/** The text of a page before compression (bench/pdf/gen.py:19-25), and the checksum its
    documentation promises: each line holds "invoice" once. */
module PdfContent {
  import opened Common
  import opened Decimal

  const WORDS: seq<string> :=
    ["alpha", "beta", "gamma", "delta", "epsilon", "zeta", "theta", "kappa", "lambda", "omicron", "sigma", "omega"]

  function Word(n: nat): string { WORDS[n % 12] }

  const HEAD: string := "BT /F1 10 Tf 12 TL 56 770 Td"

  /** Words `i` to 8 from a place in a list, with a space between two. */
  function Joined(word: nat -> string, start: nat, i: nat): string
    requires i < 8
    decreases 8 - i, start
  {
    word(start + i) + if i == 7 then "" else " " + Joined(word, start, i + 1)
  }

  function Words(start: nat): string { Joined(Word, start, 0) }

  function Before(page: nat, line: nat): string {
    "(Line " + Dec(line + 1) + (" of page " + Dec(page + 1) + ": ")
  }

  function After(page: nat, line: nat): string { " " + Words(page + line) + ") Tj T*" }

  function Line(page: nat, line: nat): string { Before(page, line) + "invoice" + After(page, line) }

  /** `"\n".join` of the lines from `line` on and the end marker, each with its break. */
  function Lines(page: nat, line: nat, lines: nat): string
    decreases lines - line
  {
    if line >= lines then "\n" + "ET" else "\n" + Line(page, line) + Lines(page, line + 1, lines)
  }

  function Text(page: nat, lines: nat): string { HEAD + Lines(page, 0, lines) }

  predicate AtInvoice(s: string) {
    |s| >= 7 && s[0] == 'i' && s[1] == 'n' && s[2] == 'v' && s[3] == 'o' && s[4] == 'i' && s[5] == 'c' && s[6] == 'e'
  }

  /** How often "invoice" occurs, at any position. */
  function Occurrences(s: string): nat {
    if s == "" then 0 else (if AtInvoice(s) then 1 else 0) + Occurrences(s[1..])
  }

  predicate NoV(s: string) { forall i :: 0 <= i < |s| ==> s[i] != 'v' }

  lemma {:induction false} SkipNoV(a: string, rest: string)
    requires NoV(a) && (|rest| > 0 ==> rest[0] != 'v') && (|rest| > 1 ==> rest[1] != 'v')
    ensures Occurrences(a + rest) == Occurrences(rest)
  {
    if a == "" {
      assert a + rest == rest;
    } else {
      SkipNoV(a[1..], rest);
      var s := a + rest;
      assert s[1..] == a[1..] + rest;
      assert |s| > 2 ==> s[2] != 'v';
    }
  }

  lemma {:induction false} Slide(t: string, k: nat)
    requires 1 <= k <= 7 && AtInvoice(t)
    ensures Occurrences(t[k..]) == Occurrences(t[7..])
    decreases 7 - k
  {
    if k < 7 {
      Slide(t, k + 1);
      assert t[k..][0] == t[k] && t[k..][1..] == t[k + 1..];
      assert k == 4 ==> t[k..][1] == t[5];
    }
  }

  lemma OneMore(rest: string)
    ensures Occurrences("invoice" + rest) == 1 + Occurrences(rest)
  {
    var t := "invoice" + rest;
    Slide(t, 1);
    assert t[7..] == rest;
  }

  lemma AroundOne(a: string, b: string, rest: string)
    requires NoV(a) && NoV(b) && (|rest| > 0 ==> rest[0] != 'v') && (|rest| > 1 ==> rest[1] != 'v')
    ensures Occurrences(a + "invoice" + b + rest) == 1 + Occurrences(rest)
  {
    var t := "invoice" + (b + rest);
    assert a + "invoice" + b + rest == a + t;
    assert t[0] == 'i' && t[1] == 'n';
    SkipNoV(a, t);
    OneMore(b + rest);
    SkipNoV(b, rest);
  }

  lemma NoVAppend(s: string, t: string)
    requires NoV(s) && NoV(t)
    ensures NoV(s + t)
  {
  }

  lemma DecNoV(n: nat)
    ensures NoV(Dec(n))
  {
    DecDigits(n);
  }

  lemma WordNoV(n: nat)
    ensures NoV(Word(n))
  {
  }

  /** What holds of every word and the space holds of the joined words. */
  lemma {:induction false} JoinedWithout(word: nat -> string, start: nat, i: nat, c: char)
    requires i < 8 && c != ' ' && forall n :: c !in word(n)
    ensures c !in Joined(word, start, i)
    decreases 8 - i
  {
    if i < 7 {
      JoinedWithout(word, start, i + 1, c);
    }
  }

  lemma WordsNoV(start: nat)
    ensures NoV(Words(start))
  {
    forall n ensures 'v' !in Word(n) {
      WordNoV(n);
    }
    JoinedWithout(Word, start, 0, 'v');
  }

  lemma LineNoV(page: nat, line: nat)
    ensures NoV("\n" + Before(page, line)) && NoV(After(page, line))
  {
    DecNoV(line + 1);
    DecNoV(page + 1);
    WordsNoV(page + line);
    NoVAppend("(Line ", Dec(line + 1));
    NoVAppend(" of page ", Dec(page + 1));
    NoVAppend(" of page " + Dec(page + 1), ": ");
    NoVAppend("(Line " + Dec(line + 1), " of page " + Dec(page + 1) + ": ");
    NoVAppend("\n", Before(page, line));
    NoVAppend(" ", Words(page + line));
    NoVAppend(" " + Words(page + line), ") Tj T*");
  }

  lemma {:induction false} LinesCount(page: nat, line: nat, lines: nat)
    requires line <= lines
    ensures Occurrences(Lines(page, line, lines)) == lines - line
    ensures |Lines(page, line, lines)| > 1 && Lines(page, line, lines)[0] == '\n' && Lines(page, line, lines)[1] != 'v'
    decreases lines - line
  {
    if line == lines {
      assert NoV("\n" + "ET");
      SkipNoV("\n" + "ET", "");
      assert "\n" + "ET" + "" == "\n" + "ET";
    } else {
      var rest := Lines(page, line + 1, lines);
      LinesCount(page, line + 1, lines);
      LineNoV(page, line);
      OneLine(Before(page, line), After(page, line), rest);
      FirstOf(Dec(line + 1), " of page " + Dec(page + 1) + ": ");
    }
  }

  lemma FirstOf(number: string, more: string)
    ensures ("(Line " + number + more)[0] == '('
  {
  }

  lemma OneLine(a: string, b: string, rest: string)
    requires NoV("\n" + a) && NoV(b) && |rest| > 1 && rest[0] != 'v' && rest[1] != 'v'
    ensures Occurrences("\n" + (a + "invoice" + b) + rest) == 1 + Occurrences(rest)
  {
    assert "\n" + (a + "invoice" + b) + rest == ("\n" + a) + "invoice" + b + rest;
    AroundOne("\n" + a, b, rest);
  }

  /** One occurrence a line: 40 a page, 8000 in 200 pages. */
  lemma InvoiceChecksum(page: nat, lines: nat)
    ensures Occurrences(Text(page, lines)) == lines
  {
    LinesCount(page, 0, lines);
    HeadNoV();
    SkipNoV(HEAD, Lines(page, 0, lines));
  }

  lemma HeadNoV()
    ensures NoV(HEAD)
  {
  }

  /** The source's loop, whose list is joined with line breaks. */
  method Content(page: nat, lines: nat) returns (text: string)
    ensures text == Text(page, lines)
    ensures Occurrences(text) == lines
  {
    text := HEAD;
    var line := 0;
    while line < lines
      invariant 0 <= line <= lines
      invariant text + Lines(page, line, lines) == Text(page, lines)
    {
      Onward(text, Line(page, line), Lines(page, line + 1, lines));
      text := text + ("\n" + Line(page, line));
      line := line + 1;
    }
    text := text + ("\n" + "ET");
    InvoiceChecksum(page, lines);
  }

  lemma Onward(text: string, line: string, rest: string)
    ensures text + ("\n" + line + rest) == text + ("\n" + line) + rest
  {
  }

  // ----- Line by line -----

  predicate NoBreak(s: string) { '\n' !in s }

  lemma WordsBreak(start: nat)
    ensures NoBreak(Words(start))
  {
    forall n ensures '\n' !in Word(n) {
      WordPlain(n);
    }
    JoinedWithout(Word, start, 0, '\n');
  }

  lemma WordPlain(n: nat)
    ensures '\n' !in Word(n) && ' ' !in Word(n)
  {
  }

  lemma LineBreak(page: nat, line: nat)
    ensures NoBreak(Line(page, line))
  {
    DecDigits(line + 1);
    DecDigits(page + 1);
    WordsBreak(page + line);
    Unbroken(Dec(line + 1), Dec(page + 1), Words(page + line));
  }

  lemma Unbroken(number: string, page: string, words: string)
    requires NoBreak(number) && NoBreak(page) && NoBreak(words)
    ensures NoBreak("(Line " + number + (" of page " + page + ": ") + "invoice" + (" " + words + ") Tj T*"))
  {
  }

  function LineList(page: nat, line: nat, lines: nat): seq<string>
    requires line <= lines
  {
    seq(lines - line, i requires 0 <= i < lines - line => Line(page, line + i))
  }

  lemma NextLine(page: nat, line: nat, lines: nat, before: string)
    requires line < lines
    ensures before + Lines(page, line, lines) == before + "\n" + (Line(page, line) + Lines(page, line + 1, lines))
  {
    Onward(before, Line(page, line), Lines(page, line + 1, lines));
    Regroup(before, "\n", Line(page, line), Lines(page, line + 1, lines));
  }

  lemma Regroup(a: string, b: string, c: string, d: string)
    ensures a + (b + c) + d == a + b + (c + d)
  {
  }

  lemma {:induction false} LinesSplit(page: nat, line: nat, lines: nat, before: string)
    requires line <= lines && NoBreak(before)
    ensures Split(before + Lines(page, line, lines), '\n') == [before] + LineList(page, line, lines) + ["ET"]
    decreases lines - line
  {
    if line == lines {
      SplitFirst(before, '\n', "ET");
      SplitNone("ET", '\n');
      Assoc(before, "\n", "ET");
      assert LineList(page, line, lines) == [];
    } else {
      NextLine(page, line, lines, before);
      SplitFirst(before, '\n', Line(page, line) + Lines(page, line + 1, lines));
      LineBreak(page, line);
      LinesSplit(page, line + 1, lines, Line(page, line));
      ListStep(page, line, lines);
      Regroup3([before], [Line(page, line)], LineList(page, line + 1, lines), ["ET"]);
    }
  }

  lemma ListStep(page: nat, line: nat, lines: nat)
    requires line < lines
    ensures LineList(page, line, lines) == [Line(page, line)] + LineList(page, line + 1, lines)
  {
  }

  lemma Regroup3(a: seq<string>, b: seq<string>, c: seq<string>, d: seq<string>)
    ensures a + (b + c + d) == a + (b + c) + d
  {
  }

  /** The text has a line to begin, the asked number of lines in order, and one to end. */
  lemma TextLines(page: nat, lines: nat)
    ensures var all := Split(Text(page, lines), '\n');
      && |all| == lines + 2 && all[0] == HEAD && all[lines + 1] == "ET"
      && forall i :: 0 <= i < lines ==> all[i + 1] == Line(page, i)
  {
    HeadPlain();
    LinesSplit(page, 0, lines, HEAD);
  }

  lemma HeadPlain()
    ensures NoBreak(HEAD)
  {
  }

  lemma LastWord(word: string)
    requires ' ' !in word
    ensures Split(word + "", ' ') == [word]
  {
    SplitNone(word, ' ');
    assert word + "" == word;
  }

  lemma FirstWord(word: string, more: string)
    requires ' ' !in word
    ensures Split(word + (" " + more), ' ') == [word] + Split(more, ' ')
  {
    SplitFirst(word, ' ', more);
    Assoc(word, " ", more);
  }

  lemma {:induction false} JoinedSplit(word: nat -> string, start: nat, i: nat)
    requires i < 8 && forall n :: ' ' !in word(n)
    ensures var words := Split(Joined(word, start, i), ' ');
      |words| == 8 - i && forall k :: 0 <= k < 8 - i ==> words[k] == word(start + i + k)
    decreases 8 - i
  {
    if i == 7 {
      LastWord(word(start + i));
    } else {
      JoinedSplit(word, start, i + 1);
      FirstWord(word(start + i), Joined(word, start, i + 1));
    }
  }

  function Phrase(number: string, on: string, words: string): string {
    "(Line " + number + (" of page " + on + ": ") + "invoice" + (" " + words + ") Tj T*")
  }

  lemma LineIsPhrase(page: nat, line: nat)
    ensures Line(page, line) == Phrase(Dec(line + 1), Dec(page + 1), Words(page + line))
  {
  }

  /** Each line says its number and its page's, from one. */
  lemma LineTells(page: nat, line: nat) returns (number: string, on: string)
    ensures Line(page, line) == Phrase(number, on, Words(page + line))
    ensures AllDigits(number) && Value(number) == line + 1 && AllDigits(on) && Value(on) == page + 1
  {
    number, on := Dec(line + 1), Dec(page + 1);
    DecDigits(line + 1);
    DecDigits(page + 1);
    LineIsPhrase(page, line);
  }

  /** And the eight words from its start, which moves on by one with each line and each
      page. */
  lemma WordsTell(start: nat)
    ensures var words := Split(Words(start), ' ');
      |words| == 8 && forall k :: 0 <= k < 8 ==> words[k] == WORDS[(start + k) % 12]
  {
    WordsListed(start);
    ListTells(Split(Words(start), ' '), start);
  }

  lemma WordsListed(start: nat)
    ensures var words := Split(Words(start), ' ');
      |words| == 8 && forall k :: 0 <= k < 8 ==> words[k] == Word(start + k)
  {
    forall n ensures ' ' !in Word(n) {
      WordPlain(n);
    }
    JoinedSplit(Word, start, 0);
  }

  lemma ListTells(words: seq<string>, start: nat)
    requires |words| == 8 && forall k :: 0 <= k < 8 ==> words[k] == Word(start + k)
    ensures forall k :: 0 <= k < 8 ==> words[k] == WORDS[(start + k) % 12]
  {
    forall k | 0 <= k < 8 ensures words[k] == WORDS[(start + k) % 12] {
      WordIs(start + k);
    }
  }

  lemma WordIs(n: nat)
    ensures Word(n) == WORDS[n % 12]
  {
  }
}
