/** The benchmark's PDF writer (bench/pdf/gen.py:43-52) and a reader that finds objects
    through the cross-reference table (ISO 32000-1:2008, sections 7.5.4 and 7.5.5). */
module Pdf {
  import opened Common
  import opened Decimal

  type Blob = seq<byte>

  // ----- Writing -----

  function Header(): Blob { Bytes("%PDF-1.7\n%") + [0xe2, 0xe3, 0xcf, 0xd3, 0x0a] }

  function Object(number: nat, body: Blob): Blob {
    Bytes(Dec(number) + " 0 obj\n") + body + Bytes("\nendobj\n")
  }

  function Numbered(bodies: seq<Blob>): seq<Blob> {
    seq(|bodies|, k requires 0 <= k < |bodies| => Object(k + 1, bodies[k]))
  }

  /** The file up to the cross-reference table; the first object is number 1. */
  function Objects(bodies: seq<Blob>): Blob { Header() + Concat(Numbered(bodies)) }

  /** Where object `k + 1` starts. */
  function Offset(bodies: seq<Blob>, k: nat): nat
    requires k <= |bodies|
  {
    |Objects(bodies[..k])|
  }

  function Zeros(n: nat): string { seq(n, _ => '0') }

  /** The format `{:010}`: at least ten digits. */
  function Padded(n: nat): string {
    if |Dec(n)| < 10 then Zeros(10 - |Dec(n)|) + Dec(n) else Dec(n)
  }

  function Entry(offset: nat): Blob { Bytes(Padded(offset) + " 00000 n \n") }

  function Entries(offsets: seq<nat>): Blob { Concat(Map(Entry, offsets)) }

  function Offsets(bodies: seq<Blob>): seq<nat> {
    seq(|bodies|, k requires 0 <= k < |bodies| => Offset(bodies, k))
  }

  function XrefHead(count: nat): Blob {
    Bytes("xref\n0 ") + Bytes(Dec(count + 1)) + Bytes("\n") + Bytes("0000000000 65535 f \n")
  }

  function Trailer(count: nat, xref: nat): Blob {
    Bytes("trailer\n<< /Size ") + Bytes(Dec(count + 1)) + Bytes(" /Root 1 0 R >>\n")
    + Bytes("startxref\n") + Bytes(Dec(xref)) + Bytes("\n%%EOF\n")
  }

  function File(bodies: seq<Blob>): Blob {
    var head := Objects(bodies);
    head + XrefHead(|bodies|) + Entries(Offsets(bodies)) + Trailer(|bodies|, |head|)
  }

  lemma ConcatStep(parts: seq<Blob>, k: nat)
    requires k < |parts|
    ensures Concat(parts[..k + 1]) == Concat(parts[..k]) + parts[k]
  {
    ConcatSnoc(parts[..k], parts[k]);
    assert parts[..k + 1] == parts[..k] + [parts[k]];
  }

  lemma NumberedPrefix(bodies: seq<Blob>, k: nat)
    requires k <= |bodies|
    ensures Numbered(bodies[..k]) == Numbered(bodies)[..k]
  {
  }

  lemma ObjectsStep(bodies: seq<Blob>, k: nat)
    requires k < |bodies|
    ensures Objects(bodies[..k + 1]) == Objects(bodies[..k]) + Object(k + 1, bodies[k])
  {
    NumberedPrefix(bodies, k);
    NumberedPrefix(bodies, k + 1);
    ConcatStep(Numbered(bodies), k);
    Assoc(Header(), Concat(Numbered(bodies)[..k]), Object(k + 1, bodies[k]));
  }

  lemma OffsetsPrefix(bodies: seq<Blob>, k: nat)
    requires k < |bodies|
    ensures Offsets(bodies[..k + 1]) == Offsets(bodies[..k]) + [|Objects(bodies[..k])|]
    ensures bodies[..k + 1][..k] == bodies[..k]
  {
    forall i | 0 <= i <= k ensures bodies[..k + 1][..i] == bodies[..i] {
    }
    forall i | 0 <= i < k ensures bodies[..k][..i] == bodies[..i] {
    }
  }

  /** The writer's loops: append each object, noting where it starts; then an entry for
      each note. */
  method Write(objects: seq<Blob>) returns (out: Blob, offsets: seq<nat>)
    ensures out == File(objects)
    ensures offsets == Offsets(objects)
  {
    out := Header();
    offsets := [];
    var k := 0;
    while k < |objects|
      invariant 0 <= k <= |objects|
      invariant out == Objects(objects[..k]) && offsets == Offsets(objects[..k])
    {
      OffsetsPrefix(objects, k);
      ObjectsStep(objects, k);
      offsets := offsets + [|out|];
      out := out + Object(k + 1, objects[k]);
      k := k + 1;
    }
    assert objects[..k] == objects;
    var xref := |out|;
    out := out + XrefHead(|objects|);
    out := AppendEntries(out, offsets);
    out := out + Trailer(|objects|, xref);
  }

  method AppendEntries(before: Blob, offsets: seq<nat>) returns (out: Blob)
    ensures out == before + Entries(offsets)
  {
    out := before;
    var k := 0;
    while k < |offsets|
      invariant 0 <= k <= |offsets|
      invariant out == before + Entries(offsets[..k])
    {
      EntriesStep(before, offsets, k);
      out := out + Entry(offsets[k]);
      k := k + 1;
    }
    assert offsets[..k] == offsets;
  }

  lemma EntriesStep(before: Blob, offsets: seq<nat>, k: nat)
    requires k < |offsets|
    ensures before + Entries(offsets[..k]) + Entry(offsets[k]) == before + Entries(offsets[..k + 1])
  {
    var parts: seq<Blob> := Map(Entry, offsets);
    assert Map(Entry, offsets[..k]) == parts[..k] && Map(Entry, offsets[..k + 1]) == parts[..k + 1];
    ConcatStep(parts, k);
    Assoc(before, Concat(parts[..k]), parts[k]);
  }

  // ----- Reading -----

  predicate IsDigitByte(b: byte) { 48 <= b < 58 }

  predicate AllDigitBytes(bs: Blob) { forall i :: 0 <= i < |bs| ==> IsDigitByte(bs[i]) }

  function Number(bs: Blob): nat
    requires AllDigitBytes(bs)
  {
    if bs == [] then 0 else 10 * Number(bs[..|bs| - 1]) + (bs[|bs| - 1] as int - 48)
  }

  /** How many digits `bs` starts with. */
  function Leading(bs: Blob): (d: nat)
    ensures d <= |bs| && AllDigitBytes(bs[..d])
  {
    if bs == [] || !IsDigitByte(bs[0]) then 0
    else
      var d := Leading(bs[1..]);
      assert bs[..d + 1] == [bs[0]] + bs[1..][..d];
      d + 1
  }

  /** How many digits `bs` ends with. */
  function Trailing(bs: Blob): (d: nat)
    ensures d <= |bs| && AllDigitBytes(bs[|bs| - d..])
  {
    if bs == [] || !IsDigitByte(bs[|bs| - 1]) then 0
    else
      var n := |bs| - 1;
      var d := Trailing(bs[..n]);
      assert bs[n - d..] == bs[..n][n - d..] + [bs[n]];
      d + 1
  }

  function Skip(bs: Blob, text: string): Option<Blob> {
    if Bytes(text) <= bs then Some(bs[|text|..]) else None
  }

  function SkipBack(bs: Blob, text: string): Option<Blob> {
    if |text| <= |bs| && bs[|bs| - |text|..] == Bytes(text) then Some(bs[..|bs| - |text|]) else None
  }

  function ReadNat(bs: Blob): Option<(nat, Blob)> {
    var d := Leading(bs);
    if d == 0 then None else Some((Number(bs[..d]), bs[d..]))
  }

  /** Section 7.5.5: the offset on the line before the end-of-file marker. */
  function StartXref(file: Blob): Option<nat> {
    var bs :- SkipBack(file, "\n%%EOF\n");
    var d := Trailing(bs);
    if d == 0 then None
    else
      var _ :- SkipBack(bs[..|bs| - d], "startxref\n");
      Some(Number(bs[|bs| - d..]))
  }

  datatype Table = Table(size: nat, entries: Blob)

  /** The table at the offset found, whose first entry heads the list of free objects. */
  function ReadTable(file: Blob): Option<Table> {
    var x :- StartXref(file);
    if x > |file| then None
    else
      var bs :- Skip(file[x..], "xref\n0 ");
      var size :- ReadNat(bs);
      var entries :- Skip(size.1, "\n");
      var _ :- Skip(entries, "0000000000 65535 f \n");
      Some(Table(size.0, entries))
  }

  /** Section 7.5.4: an entry in use is ten digits, then the generation and `n`. */
  function ReadEntry(e: Blob): Option<nat>
    requires |e| == 20
  {
    if AllDigitBytes(e[..10]) && e[10..] == Bytes(" 00000 n \n") then Some(Number(e[..10])) else None
  }

  function Locate(file: Blob, k: nat): Option<nat> {
    var t :- ReadTable(file);
    if k < t.size && 20 * k + 20 <= |t.entries| then ReadEntry(t.entries[20 * k..20 * k + 20]) else None
  }

  /** What follows `k 0 obj` where the table says object `k` is. */
  function Fetch(file: Blob, k: nat): Option<Blob> {
    var offset :- Locate(file, k);
    if offset <= |file| then Skip(file[offset..], Dec(k) + " 0 obj\n") else None
  }

  // ----- Numerals -----

  function Pow10(k: nat): nat { if k == 0 then 1 else 10 * Pow10(k - 1) }

  lemma {:induction false} NumberBytes(s: string)
    requires AllDigits(s)
    ensures AllDigitBytes(Bytes(s)) && Number(Bytes(s)) == Value(s)
  {
    if s != [] {
      var n := |s| - 1;
      NumberBytes(s[..n]);
      assert Bytes(s)[..n] == Bytes(s[..n]);
    }
  }

  lemma DecBytes(n: nat)
    ensures AllDigitBytes(Bytes(Dec(n))) && Number(Bytes(Dec(n))) == n && |Dec(n)| > 0
  {
    DecDigits(n);
    NumberBytes(Dec(n));
  }

  lemma {:induction false} DecLength(n: nat, k: nat)
    requires k > 0
    ensures |Dec(n)| <= k <==> n < Pow10(k)
  {
    if n >= 10 {
      if k == 1 {
        DecBytes(n / 10);
      } else {
        DecLength(n / 10, k - 1);
      }
    } else {
      PowPositive(k - 1);
    }
  }

  lemma {:induction false} PowPositive(k: nat)
    ensures Pow10(k) >= 1
  {
    if k > 0 {
      PowPositive(k - 1);
    }
  }

  lemma {:induction false} NumberBound(bs: Blob)
    requires AllDigitBytes(bs)
    ensures Number(bs) < Pow10(|bs|)
  {
    if bs != [] {
      NumberBound(bs[..|bs| - 1]);
    }
  }

  lemma {:induction false} ZerosNumber(z: nat, bs: Blob)
    requires AllDigitBytes(bs)
    ensures AllDigitBytes(Bytes(Zeros(z)) + bs) && Number(Bytes(Zeros(z)) + bs) == Number(bs)
    decreases z + |bs|
  {
    var cs := Bytes(Zeros(z)) + bs;
    if bs != [] {
      ZerosNumber(z, bs[..|bs| - 1]);
      assert cs[..|cs| - 1] == Bytes(Zeros(z)) + bs[..|bs| - 1];
    } else if z > 0 {
      ZerosNumber(z - 1, []);
      assert cs[..|cs| - 1] == Bytes(Zeros(z - 1)) + [];
    }
  }

  lemma {:induction false} LeadingExact(ds: Blob, rest: Blob)
    requires AllDigitBytes(ds) && (rest == [] || !IsDigitByte(rest[0]))
    ensures Leading(ds + rest) == |ds|
  {
    if ds == [] {
      assert ds + rest == rest;
    } else {
      LeadingExact(ds[1..], rest);
      assert (ds + rest)[1..] == ds[1..] + rest;
    }
  }

  lemma {:induction false} TrailingExact(rest: Blob, ds: Blob)
    requires AllDigitBytes(ds) && (rest == [] || !IsDigitByte(rest[|rest| - 1]))
    ensures Trailing(rest + ds) == |ds|
  {
    if ds == [] {
      assert rest + ds == rest;
    } else {
      TrailingExact(rest, ds[..|ds| - 1]);
      assert (rest + ds)[..|rest + ds| - 1] == rest + ds[..|ds| - 1];
    }
  }

  // ----- Each reading step undoes a writing step -----

  lemma SkipBytes(text: string, rest: Blob)
    ensures Skip(Bytes(text) + rest, text) == Some(rest)
  {
  }

  lemma SkipBackBytes(rest: Blob, text: string)
    ensures SkipBack(rest + Bytes(text), text) == Some(rest)
  {
  }

  lemma ReadNatBytes(n: nat, rest: Blob)
    requires rest == [] || !IsDigitByte(rest[0])
    ensures ReadNat(Bytes(Dec(n)) + rest) == Some((n, rest))
  {
    DecBytes(n);
    LeadingExact(Bytes(Dec(n)), rest);
    var bs := Bytes(Dec(n)) + rest;
    assert bs[..|Dec(n)|] == Bytes(Dec(n));
  }

  lemma PaddedEntry(offset: nat)
    ensures |Padded(offset)| == 10 <==> offset < Pow10(10)
    ensures offset < Pow10(10) ==> |Entry(offset)| == 20 && ReadEntry(Entry(offset)) == Some(offset)
  {
    DecLength(offset, 10);
    DecBytes(offset);
    if offset < Pow10(10) {
      ZerosNumber(10 - |Dec(offset)|, Bytes(Dec(offset)));
      var digits := Bytes(Padded(offset));
      BytesAppend(Zeros(10 - |Dec(offset)|), Dec(offset));
      assert Zeros(0) + Dec(offset) == Dec(offset);
      assert digits == Bytes(Zeros(10 - |Dec(offset)|)) + Bytes(Dec(offset));
      EntryReads(Padded(offset));
    }
  }

  lemma PaddedDigits(offset: nat)
    ensures AllDigits(Padded(offset)) && |Padded(offset)| >= 10
    ensures offset >= Pow10(10) ==> |Padded(offset)| > 10
  {
    DecLength(offset, 10);
    DecDigits(offset);
  }

  lemma DigitsEntry(digits: string)
    requires AllDigits(digits)
    ensures |Bytes(digits + " 00000 n \n")| == |digits| + 10
    ensures 't' as int !in Bytes(digits + " 00000 n \n")
  {
    var entry := digits + " 00000 n \n";
    assert forall i :: 0 <= i < |entry| ==> entry[i] != 't' && entry[i] <= 'n';
  }

  /** Any offset takes at least ten digits, and one that does not fit takes more. */
  lemma EntryBytes(offset: nat)
    ensures |Entry(offset)| >= 20 && (offset >= Pow10(10) ==> |Entry(offset)| > 20)
    ensures 't' as int !in Entry(offset)
  {
    PaddedDigits(offset);
    DigitsEntry(Padded(offset));
  }

  lemma EntryReads(digits: string)
    requires |digits| == 10 && AllDigitBytes(Bytes(digits))
    ensures |Bytes(digits + " 00000 n \n")| == 20
    ensures ReadEntry(Bytes(digits + " 00000 n \n")) == Some(Number(Bytes(digits)))
  {
    BytesAppend(digits, " 00000 n \n");
    var e := Bytes(digits + " 00000 n \n");
    assert e[..10] == Bytes(digits);
    assert e[10..] == Bytes(" 00000 n \n");
  }

  /** Section 7.5.2: the version, and a comment of at least four bytes that are not text. */
  predicate HasHeader(file: Blob) {
    match Skip(file, "%PDF-1.7\n%")
    case None => false
    case Some(rest) => |rest| > 4 && rest[4] == 0x0a && forall i :: 0 <= i < 4 ==> rest[i] >= 128
  }

  lemma HeaderReads(rest: Blob)
    ensures HasHeader(Header() + rest)
  {
    var comment: Blob := [0xe2, 0xe3, 0xcf, 0xd3, 0x0a];
    assert Header() + rest == Bytes("%PDF-1.7\n%") + (comment + rest);
    SkipBytes("%PDF-1.7\n%", comment + rest);
  }

  lemma FileHeader(bodies: seq<Blob>)
    ensures HasHeader(File(bodies))
  {
    var parts, x := Concat(Numbered(bodies)), XrefHead(|bodies|);
    var e, t := Entries(Offsets(bodies)), Trailer(|bodies|, |Objects(bodies)|);
    Regroup5(Header(), parts, x, e, t);
    HeaderReads(parts + (x + (e + t)));
  }

  lemma Regroup5(a: Blob, b: Blob, c: Blob, d: Blob, e: Blob)
    ensures a + b + c + d + e == a + (b + (c + (d + e)))
  {
  }

  // ----- Random access through the table -----

  lemma Regroup4(a: Blob, b: Blob, c: Blob, d: Blob)
    ensures a + b + c + d == a + (b + (c + d))
  {
  }

  lemma StartXrefReads(before: Blob, xref: nat)
    ensures StartXref(before + Bytes("startxref\n") + Bytes(Dec(xref)) + Bytes("\n%%EOF\n")) == Some(xref)
  {
    var head, ds := before + Bytes("startxref\n"), Bytes(Dec(xref));
    DecBytes(xref);
    SkipBackBytes(head + ds, "\n%%EOF\n");
    assert head[|head| - 1] == Bytes("startxref\n")[9] == 10;
    TrailingExact(head, ds);
    assert (head + ds)[..|head|] == head && (head + ds)[|head|..] == ds;
    SkipBackBytes(before, "startxref\n");
  }

  /** The table is found from the end of the file, whatever the objects contain. */
  lemma FileTable(bodies: seq<Blob>)
    ensures ReadTable(File(bodies)) == Some(Table(|bodies| + 1,
      Bytes("0000000000 65535 f \n") + (Entries(Offsets(bodies)) + Trailer(|bodies|, |Objects(bodies)|))))
  {
    var head, n := Objects(bodies), |bodies|;
    var entries, trailer := Entries(Offsets(bodies)), Trailer(n, |head|);
    TableReads(head, n, entries, trailer, |head|);
  }

  lemma TrailerEnds(count: nat, xref: nat) returns (front: Blob)
    ensures Trailer(count, xref) == front + Bytes("startxref\n") + Bytes(Dec(xref)) + Bytes("\n%%EOF\n")
  {
    front := Bytes("trailer\n<< /Size ") + Bytes(Dec(count + 1)) + Bytes(" /Root 1 0 R >>\n");
  }

  lemma FrontAppend(a: Blob, front: Blob, p: Blob, q: Blob, r: Blob)
    ensures a + (front + p + q + r) == (a + front) + p + q + r
  {
  }

  lemma TableReads(head: Blob, n: nat, entries: Blob, trailer: Blob, xref: nat)
    requires trailer == Trailer(n, xref) && xref == |head|
    ensures ReadTable(head + XrefHead(n) + entries + trailer)
         == Some(Table(n + 1, Bytes("0000000000 65535 f \n") + (entries + trailer)))
  {
    var file := head + XrefHead(n) + entries + trailer;
    var front := TrailerEnds(n, xref);
    FrontAppend(head + XrefHead(n) + entries, front, Bytes("startxref\n"), Bytes(Dec(xref)), Bytes("\n%%EOF\n"));
    StartXrefReads(head + XrefHead(n) + entries + front, xref);
    Regroup4(head, XrefHead(n), entries, trailer);
    assert file[xref..] == XrefHead(n) + (entries + trailer);
    HeadReads(n, entries + trailer);
    SkipBytes("0000000000 65535 f \n", entries + trailer);
  }

  lemma HeadReads(n: nat, rest: Blob)
    ensures Skip(XrefHead(n) + rest, "xref\n0 ").Some?
    ensures ReadNat(Skip(XrefHead(n) + rest, "xref\n0 ").value).Some?
    ensures var r := ReadNat(Skip(XrefHead(n) + rest, "xref\n0 ").value).value;
      r.0 == n + 1 && Skip(r.1, "\n") == Some(Bytes("0000000000 65535 f \n") + rest)
  {
    var last := Bytes("0000000000 65535 f \n") + rest;
    Regroup5(Bytes("xref\n0 "), Bytes(Dec(n + 1)), Bytes("\n"), Bytes("0000000000 65535 f \n"), rest);
    SkipBytes("xref\n0 ", Bytes(Dec(n + 1)) + (Bytes("\n") + last));
    ReadNatBytes(n + 1, Bytes("\n") + last);
    SkipBytes("\n", last);
  }

  lemma {:induction false} EqualLength(parts: seq<Blob>)
    requires forall i :: 0 <= i < |parts| ==> |parts[i]| == 20
    ensures |Concat(parts)| == 20 * |parts|
  {
    if parts != [] {
      EqualLength(parts[1..]);
    }
  }

  lemma {:induction false} ConcatSplit(parts: seq<Blob>, k: nat)
    requires k < |parts|
    ensures Concat(parts) == Concat(parts[..k]) + parts[k] + Concat(parts[k + 1..])
    decreases k
  {
    if k == 0 {
      assert parts[..0] == [] && [] + parts[0] == parts[0];
    } else {
      ConcatSplit(parts[1..], k - 1);
      assert parts[..k][0] == parts[0] && parts[..k][1..] == parts[1..][..k - 1] && parts[1..][k..] == parts[k + 1..];
      Nest(parts[0], Concat(parts[1..][..k - 1]), parts[k], Concat(parts[k + 1..]));
      Assoc(parts[0] + Concat(parts[1..][..k - 1]), parts[k], Concat(parts[k + 1..]));
    }
  }

  lemma {:induction false} OffsetsIncrease(bodies: seq<Blob>, j: nat, k: nat)
    requires j < k <= |bodies|
    ensures Offset(bodies, j) < Offset(bodies, k)
    decreases k - j
  {
    ObjectsStep(bodies, k - 1);
    if j < k - 1 {
      OffsetsIncrease(bodies, j, k - 1);
    }
  }

  lemma SliceEntry(first: Blob, before: Blob, e: Blob, after: Blob, trailer: Blob, k: nat)
    requires |first| == 20 && |before| == 20 * k && |e| == 20
    ensures |first + (before + e + after + trailer)| >= 20 * (k + 1) + 20
    ensures (first + (before + e + after + trailer))[20 * (k + 1)..20 * (k + 1) + 20] == e
  {
  }

  lemma EntryAt(bodies: seq<Blob>, k: nat, first: Blob, trailer: Blob)
    requires k < |bodies| && Offset(bodies, k) < Pow10(10) && |first| == 20
    ensures var entries := first + (Entries(Offsets(bodies)) + trailer);
      && |entries| >= 20 * (k + 1) + 20
      && ReadEntry(entries[20 * (k + 1)..20 * (k + 1) + 20]) == Some(Offset(bodies, k))
  {
    var parts: seq<Blob> := Map(Entry, Offsets(bodies));
    forall i | 0 <= i < k ensures |parts[..k][i]| == 20 {
      OffsetsIncrease(bodies, i, k);
      PaddedEntry(Offset(bodies, i));
    }
    EqualLength(parts[..k]);
    PaddedEntry(Offset(bodies, k));
    ConcatSplit(parts, k);
    var tail := Concat(parts[k + 1..]);
    SliceEntry(first, Concat(parts[..k]), parts[k], tail, trailer, k);
  }

  lemma LocateBelow(file: Blob, k: nat)
    ensures Locate(file, k).Some? ==> Locate(file, k).value < Pow10(10)
  {
    if Locate(file, k).Some? {
      var e := ReadTable(file).value.entries[20 * k..20 * k + 20];
      NumberBound(e[..10]);
    }
  }

  /** The entry of object `k + 1` is read back exactly when the offset fits ten digits. */
  lemma LocateExact(bodies: seq<Blob>, k: nat)
    requires k < |bodies|
    ensures Locate(File(bodies), k + 1) == Some(Offset(bodies, k)) <==> Offset(bodies, k) < Pow10(10)
  {
    LocateBelow(File(bodies), k + 1);
    if Offset(bodies, k) < Pow10(10) {
      FileTable(bodies);
      EntryAt(bodies, k, Bytes("0000000000 65535 f \n"), Trailer(|bodies|, |Objects(bodies)|));
    }
  }

  lemma ObjectsSplit(bodies: seq<Blob>, k: nat) returns (tail: Blob)
    requires k < |bodies|
    ensures Objects(bodies) == Objects(bodies[..k]) + (Object(k + 1, bodies[k]) + tail)
  {
    var parts := Numbered(bodies);
    ConcatSplit(parts, k);
    tail := Concat(parts[k + 1..]);
    NumberedPrefix(bodies, k);
    Nest(Header(), Concat(parts[..k]), parts[k], tail);
  }

  lemma Nest(a: Blob, b: Blob, c: Blob, d: Blob)
    ensures a + (b + c + d) == (a + b) + (c + d)
  {
  }

  /** Random access agrees with the list: the table leads to object `k + 1`, and there
      is that object's number, its body and its end. */
  lemma RandomAccess(bodies: seq<Blob>, k: nat) returns (rest: Blob)
    requires k < |bodies| && Offset(bodies, k) < Pow10(10)
    ensures Fetch(File(bodies), k + 1) == Some(bodies[k] + Bytes("\nendobj\n") + rest)
  {
    LocateExact(bodies, k);
    var tail := ObjectsSplit(bodies, k);
    var head, x, e, t := Objects(bodies[..k]), XrefHead(|bodies|), Entries(Offsets(bodies)), Trailer(|bodies|, |Objects(bodies)|);
    rest := tail + (x + (e + t));
    AfterHead(head, Object(k + 1, bodies[k]), tail, x, e, t);
    ObjectReads(k + 1, bodies[k], rest);
  }

  lemma AfterHead(head: Blob, obj: Blob, tail: Blob, x: Blob, e: Blob, t: Blob)
    ensures (head + (obj + tail) + x + e + t)[|head|..] == obj + (tail + (x + (e + t)))
  {
  }

  lemma ObjectReads(number: nat, body: Blob, rest: Blob)
    ensures Skip(Object(number, body) + rest, Dec(number) + " 0 obj\n") == Some(body + Bytes("\nendobj\n") + rest)
  {
    var head := Bytes(Dec(number) + " 0 obj\n");
    assert Object(number, body) + rest == head + (body + Bytes("\nendobj\n") + rest);
    SkipBytes(Dec(number) + " 0 obj\n", body + Bytes("\nendobj\n") + rest);
  }

  /** Entry 0 is free. */
  lemma ZeroIsFree(bodies: seq<Blob>)
    ensures Locate(File(bodies), 0) == None
  {
    FileTable(bodies);
    FirstEntry();
    LocateVia(File(bodies), 0);
    FreeFirst(Bytes("0000000000 65535 f \n"), Entries(Offsets(bodies)) + Trailer(|bodies|, |Objects(bodies)|));
  }

  lemma FirstEntry()
    ensures |Bytes("0000000000 65535 f \n")| == 20 && Bytes("0000000000 65535 f \n")[17] == 'f' as int
  {
  }

  lemma NoneBeyond(bodies: seq<Blob>, k: nat)
    requires k > |bodies|
    ensures Locate(File(bodies), k) == None
  {
    FileTable(bodies);
    LocateVia(File(bodies), k);
  }

  lemma LocateVia(file: Blob, k: nat)
    requires ReadTable(file).Some?
    ensures var t := ReadTable(file).value;
      Locate(file, k) == if k < t.size && 20 * k + 20 <= |t.entries| then ReadEntry(t.entries[20 * k..20 * k + 20]) else None
  {
  }

  lemma FreeFirst(first: Blob, rest: Blob)
    requires |first| == 20 && first[17] == 'f' as int
    ensures |first + rest| >= 20 && ReadEntry((first + rest)[0..20]) == None
  {
    var e := (first + rest)[0..20];
    assert e == first;
    assert e[10..][7] == first[17] && Bytes(" 00000 n \n")[7] == 'n' as int;
  }
}
