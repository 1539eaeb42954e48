/** The objects of the benchmark's report (bench/pdf/gen.py:28-42), for any number of pages
    and any stream bytes, and a reader that walks from the end of the file to the streams. */
module PdfDocument {
  import opened Common
  import opened Decimal
  import opened Pdf

  // ----- Writing -----

  function Catalog(): Blob { Bytes("<< /Type /Catalog /Pages 2 0 R >>") }

  /** The references to pages `p` to `count`, with a space between two. */
  function Kids(p: nat, count: nat): Blob
    decreases count - p
  {
    if p >= count then []
    else Bytes(Dec(4 + 2 * p)) + Bytes(" 0 R") + (if p + 1 < count then Bytes(" ") + Kids(p + 1, count) else [])
  }

  function Pages(count: nat): Blob {
    Bytes("<< /Type /Pages /Kids [") + Kids(0, count) + Bytes("] /Count ") + Bytes(Dec(count))
    + Resources()
  }

  function Resources(): Blob { Bytes(" /MediaBox [0 0 612 792]") + Bytes(" /Resources << /Font << /F1 3 0 R >> >> >>") }

  function Font(): Blob {
    Bytes("<< /Type /Font ") + Bytes("/Subtype /Type1 /BaseFont /Helvetica /Encoding /WinAnsiEncoding >>")
  }

  function Page(p: nat): Blob {
    Bytes("<< /Type /Page /Parent 2 0 R /Contents ") + Bytes(Dec(5 + 2 * p)) + Bytes(" 0 R >>")
  }

  function Stream(data: Blob): Blob {
    Bytes("<< /Length ") + Bytes(Dec(|data|)) + Bytes(" /Filter /FlateDecode >>\nstream\n") + data + Bytes("\nendstream")
  }

  function PageObjects(streams: seq<Blob>): (r: seq<Blob>)
    ensures |r| == 2 * |streams|
  {
    if streams == [] then []
    else
      var p := |streams| - 1;
      PageObjects(streams[..p]) + [Page(p), Stream(streams[p])]
  }

  function Document(streams: seq<Blob>): seq<Blob> {
    [Catalog(), Pages(|streams|), Font()] + PageObjects(streams)
  }

  /** `main`: page `p` has the compressed content `streams[p]`. */
  method Report(streams: seq<Blob>) returns (file: Blob)
    ensures file == File(Document(streams))
  {
    var objects := [Catalog()];
    objects := objects + [Pages(|streams|)];
    objects := objects + [Font()];
    var page := 0;
    while page < |streams|
      invariant 0 <= page <= |streams|
      invariant objects == [Catalog(), Pages(|streams|), Font()] + PageObjects(streams[..page])
    {
      assert streams[..page + 1][..page] == streams[..page];
      objects := objects + [Page(page)];
      objects := objects + [Stream(streams[page])];
      page := page + 1;
    }
    assert streams[..page] == streams;
    var offsets;
    file, offsets := Write(objects);
  }

  // ----- Reading -----

  function ReadRef(bs: Blob): (r: Option<(nat, Blob)>)
    ensures r.Some? ==> |r.value.1| < |bs|
  {
    var n :- ReadNat(bs);
    var rest :- Skip(n.1, " 0 R");
    Some((n.0, rest))
  }

  function ReadRefs(bs: Blob): Option<(seq<nat>, Blob)>
    decreases |bs|
  {
    var first :- ReadRef(bs);
    match Skip(first.1, " ")
    case None => Some(([first.0], first.1))
    case Some(rest) =>
      var more :- ReadRefs(rest);
      Some(([first.0] + more.0, more.1))
  }

  function ReadKids(bs: Blob): Option<(seq<nat>, Blob)> {
    if Skip(bs, "]").Some? then Some(([], bs)) else ReadRefs(bs)
  }

  datatype PageTree = PageTree(kids: seq<nat>, count: nat, font: nat)

  function ReadPages(bs: Blob): Option<PageTree> {
    var list :- Skip(bs, "<< /Type /Pages /Kids [");
    var kids :- ReadKids(list);
    var after :- Skip(kids.1, "] /Count ");
    var rest :- ReadCountAndFont(after);
    Some(PageTree(kids.0, rest.0, rest.1))
  }

  function ReadCountAndFont(bs: Blob): Option<(nat, nat)> {
    var count :- ReadNat(bs);
    var font :- ReadFontRef(count.1);
    Some((count.0, font))
  }

  function ReadFontRef(bs: Blob): Option<nat> {
    var resources :- Skip(bs, " /MediaBox [0 0 612 792]");
    var fonts :- Skip(resources, " /Resources << /Font << /F1 ");
    var font :- ReadRef(fonts);
    Some(font.0)
  }

  function ReadCatalog(bs: Blob): Option<nat> {
    var rest :- Skip(bs, "<< /Type /Catalog /Pages ");
    var pages :- ReadRef(rest);
    Some(pages.0)
  }

  function ReadFont(bs: Blob): Option<Blob> {
    var rest :- Skip(bs, "<< /Type /Font ");
    Skip(rest, "/Subtype /Type1 /BaseFont /Helvetica /Encoding /WinAnsiEncoding >>")
  }

  datatype PageNode = PageNode(parent: nat, contents: nat)

  function ReadPage(bs: Blob): Option<PageNode> {
    var rest :- Skip(bs, "<< /Type /Page /Parent ");
    var parent :- ReadRef(rest);
    var after :- Skip(parent.1, " /Contents ");
    var contents :- ReadRef(after);
    Some(PageNode(parent.0, contents.0))
  }

  /** A stream has exactly the bytes its `/Length` says. */
  function ReadStream(bs: Blob): Option<Blob> {
    var rest :- Skip(bs, "<< /Length ");
    var length :- ReadNat(rest);
    var data :- Skip(length.1, " /Filter /FlateDecode >>\nstream\n");
    if length.0 > |data| then None
    else
      var _ :- Skip(data[length.0..], "\nendstream\nendobj\n");
      Some(data[..length.0])
  }

  /** Section 7.5.5: the trailer follows the table and names the catalog. */
  function ReadRoot(file: Blob): Option<nat> {
    var t :- ReadTable(file);
    if 20 * t.size > |t.entries| then None
    else
      var rest :- Skip(t.entries[20 * t.size..], "trailer\n<< /Size ");
      var size :- ReadNat(rest);
      var after :- Skip(size.1, " /Root ");
      var root :- ReadRef(after);
      if size.0 == t.size then Some(root.0) else None
  }

  /** The bytes of page `kid`, a child of the page tree `parent`. */
  function ReadPageData(fetch: nat -> Option<Blob>, parent: nat, kid: nat): Option<Blob> {
    var pageBytes :- fetch(kid);
    var page :- ReadPage(pageBytes);
    if page.parent != parent then None
    else
      var streamBytes :- fetch(page.contents);
      ReadStream(streamBytes)
  }

  function Collect(read: nat -> Option<Blob>, kids: seq<nat>): Option<seq<Blob>> {
    if kids == [] then Some([])
    else
      var data :- read(kids[0]);
      var rest :- Collect(read, kids[1..]);
      Some([data] + rest)
  }

  /** What reads each kind of object. */
  datatype Readers = Readers(
    catalog: Blob -> Option<nat>,
    tree: Blob -> Option<PageTree>,
    font: Blob -> Option<Blob>)

  function Kinds(): Readers { Readers(ReadCatalog, ReadPages, ReadFont) }

  function ReadTree(fetch: nat -> Option<Blob>, readers: Readers, root: nat): Option<(nat, PageTree)> {
    var catalogBytes :- fetch(root);
    var pages :- readers.catalog(catalogBytes);
    var pagesBytes :- fetch(pages);
    var tree :- readers.tree(pagesBytes);
    var fontBytes :- fetch(tree.font);
    var _ :- readers.font(fontBytes);
    if tree.count == |tree.kids| then Some((pages, tree)) else None
  }

  function ReadFrom(fetch: nat -> Option<Blob>, root: nat): Option<seq<Blob>> {
    var tree :- ReadTree(fetch, Kinds(), root);
    Collect(kid => ReadPageData(fetch, tree.0, kid), tree.1.kids)
  }

  /** The content streams in page order, found as a viewer finds them. */
  function ReadDocument(file: Blob): Option<seq<Blob>> {
    var root :- ReadRoot(file);
    if HasHeader(file) then ReadFrom(number => Fetch(file, number), root) else None
  }

  // ----- Each object reads back -----

  lemma ReadRefBytes(n: nat, rest: Blob)
    ensures ReadRef(Bytes(Dec(n)) + (Bytes(" 0 R") + rest)) == Some((n, rest))
  {
    ReadNatBytes(n, Bytes(" 0 R") + rest);
    SkipBytes(" 0 R", rest);
  }

  lemma SplitText(a: string, b: string, rest: Blob)
    ensures Bytes(a + b) + rest == Bytes(a) + (Bytes(b) + rest)
  {
    BytesAppend(a, b);
  }

  lemma CatalogReads(rest: Blob)
    ensures ReadCatalog(Catalog() + rest) == Some(2)
  {
    assert "<< /Type /Catalog /Pages 2 0 R >>" == "<< /Type /Catalog /Pages " + (Dec(2) + (" 0 R" + " >>"));
    SplitText("<< /Type /Catalog /Pages ", Dec(2) + (" 0 R" + " >>"), rest);
    SplitText(Dec(2), " 0 R" + " >>", rest);
    SplitText(" 0 R", " >>", rest);
    SkipBytes("<< /Type /Catalog /Pages ", Bytes(Dec(2)) + (Bytes(" 0 R") + (Bytes(" >>") + rest)));
    ReadRefBytes(2, Bytes(" >>") + rest);
  }

  lemma PageReads(p: nat, rest: Blob)
    ensures ReadPage(Page(p) + rest) == Some(PageNode(2, 5 + 2 * p))
  {
    var tail := Bytes(" >>") + rest;
    var mid := Bytes(Dec(5 + 2 * p)) + (Bytes(" 0 R") + tail);
    assert " 0 R >>" == " 0 R" + " >>";
    SplitText(" 0 R", " >>", rest);
    assert Page(p) + rest == Bytes("<< /Type /Page /Parent 2 0 R /Contents ") + mid;
    assert "<< /Type /Page /Parent 2 0 R /Contents " == "<< /Type /Page /Parent " + (Dec(2) + (" 0 R" + " /Contents "));
    SplitText("<< /Type /Page /Parent ", Dec(2) + (" 0 R" + " /Contents "), mid);
    SplitText(Dec(2), " 0 R" + " /Contents ", mid);
    SplitText(" 0 R", " /Contents ", mid);
    SkipBytes("<< /Type /Page /Parent ", Bytes(Dec(2)) + (Bytes(" 0 R") + (Bytes(" /Contents ") + mid)));
    ReadRefBytes(2, Bytes(" /Contents ") + mid);
    SkipBytes(" /Contents ", mid);
    ReadRefBytes(5 + 2 * p, tail);
  }

  lemma StreamReads(data: Blob, rest: Blob)
    ensures ReadStream(Stream(data) + Bytes("\nendobj\n") + rest) == Some(data)
  {
    var tail := Bytes("\nendstream\nendobj\n") + rest;
    assert "\nendstream\nendobj\n" == "\nendstream" + "\nendobj\n";
    SplitText("\nendstream", "\nendobj\n", rest);
    var filter := Bytes(" /Filter /FlateDecode >>\nstream\n");
    StreamShape(Bytes("<< /Length "), Bytes(Dec(|data|)), filter, data, Bytes("\nendstream"), Bytes("\nendobj\n"), rest);
    SkipBytes("<< /Length ", Bytes(Dec(|data|)) + (filter + (data + tail)));
    ReadNatBytes(|data|, filter + (data + tail));
    SkipBytes(" /Filter /FlateDecode >>\nstream\n", data + tail);
    assert (data + tail)[|data|..] == tail && (data + tail)[..|data|] == data;
    SkipBytes("\nendstream\nendobj\n", rest);
  }

  lemma StreamShape(a: Blob, b: Blob, c: Blob, d: Blob, e: Blob, f: Blob, g: Blob)
    ensures a + b + c + d + e + f + g == a + (b + (c + (d + (e + (f + g)))))
  {
  }

  function KidNumbers(p: nat, count: nat): seq<nat>
    requires p <= count
  {
    seq(count - p, i requires 0 <= i < count - p => 4 + 2 * (p + i))
  }

  lemma KidNumbersStep(p: nat, count: nat)
    requires p < count
    ensures KidNumbers(p, count) == [4 + 2 * p] + KidNumbers(p + 1, count)
    ensures p + 1 == count ==> KidNumbers(p, count) == [4 + 2 * p]
  {
  }

  lemma {:induction false} KidsRead(p: nat, count: nat, rest: Blob)
    requires p < count
    ensures ReadRefs(Kids(p, count) + (Bytes("]") + rest)) == Some((KidNumbers(p, count), Bytes("]") + rest))
    decreases count - p
  {
    var tail := Bytes("]") + rest;
    var more := if p + 1 < count then Bytes(" ") + Kids(p + 1, count) else [];
    Shape4(Bytes(Dec(4 + 2 * p)), Bytes(" 0 R"), more, tail);
    ReadRefBytes(4 + 2 * p, more + tail);
    if p + 1 < count {
      Shape3(Bytes(" "), Kids(p + 1, count), tail);
      SkipBytes(" ", Kids(p + 1, count) + tail);
      KidsRead(p + 1, count, rest);
      KidNumbersStep(p, count);
    } else {
      assert more + tail == tail && tail[0] == 93 && Bytes(" ")[0] == 32;
      assert Skip(tail, " ") == None;
      KidNumbersStep(p, count);
    }
  }

  lemma Shape3(a: Blob, b: Blob, c: Blob)
    ensures a + b + c == a + (b + c)
  {
  }

  lemma Shape4(a: Blob, b: Blob, c: Blob, d: Blob)
    ensures a + b + c + d == a + (b + (c + d))
  {
  }

  lemma FontRefReads(rest: Blob)
    ensures ReadFontRef(Resources() + rest) == Some(3)
  {
    var fonts := Bytes(" >> >> >>") + rest;
    var refs := Bytes(" /Resources << /Font << /F1 ") + (Bytes(Dec(3)) + (Bytes(" 0 R") + fonts));
    ResourcesShape(rest);
    SkipBytes(" /MediaBox [0 0 612 792]", refs);
    SkipBytes(" /Resources << /Font << /F1 ", Bytes(Dec(3)) + (Bytes(" 0 R") + fonts));
    ReadRefBytes(3, fonts);
  }

  lemma ResourcesStart(rest: Blob)
    ensures (Resources() + rest)[0] == 32
  {
    assert " /MediaBox [0 0 612 792]"[0] == ' ';
  }

  lemma CountAndFontRead(count: nat, rest: Blob)
    ensures ReadCountAndFont(Bytes(Dec(count)) + (Resources() + rest)) == Some((count, 3))
  {
    FontRefReads(rest);
    ResourcesStart(rest);
    ReadNatBytes(count, Resources() + rest);
  }

  lemma Shape6(a: Blob, b: Blob, c: Blob, d: Blob, e: Blob, f: Blob)
    ensures a + b + c + d + e + f == a + (b + (c + (d + (e + f))))
  {
  }

  lemma PagesRead(count: nat, rest: Blob)
    ensures ReadPages(Pages(count) + rest) == Some(PageTree(KidNumbers(0, count), count, 3))
  {
    var resources := Resources();
    var tail := Bytes(Dec(count)) + (resources + rest);
    Shape6(Bytes("<< /Type /Pages /Kids ["), Kids(0, count), Bytes("] /Count "), Bytes(Dec(count)), resources, rest);
    SkipBytes("<< /Type /Pages /Kids [", Kids(0, count) + (Bytes("] /Count ") + tail));
    KidsListRead(count, tail);
    SkipBytes("] /Count ", tail);
    CountAndFontRead(count, rest);
  }

  lemma ResourcesShape(rest: Blob)
    ensures Resources() + rest
         == Bytes(" /MediaBox [0 0 612 792]")
            + (Bytes(" /Resources << /Font << /F1 ") + (Bytes(Dec(3)) + (Bytes(" 0 R") + (Bytes(" >> >> >>") + rest))))
  {
    var head := " /Resources << /Font << /F1 ";
    assert " /Resources << /Font << /F1 3 0 R >> >> >>" == head + (Dec(3) + (" 0 R" + " >> >> >>"));
    SplitText(head, Dec(3) + (" 0 R" + " >> >> >>"), rest);
    SplitText(Dec(3), " 0 R" + " >> >> >>", rest);
    SplitText(" 0 R", " >> >> >>", rest);
    Shape3(Bytes(" /MediaBox [0 0 612 792]"), Bytes(" /Resources << /Font << /F1 3 0 R >> >> >>"), rest);
  }

  lemma KidsListRead(count: nat, tail: Blob)
    ensures ReadKids(Kids(0, count) + (Bytes("] /Count ") + tail)) == Some((KidNumbers(0, count), Bytes("] /Count ") + tail))
  {
    assert "] /Count " == "]" + " /Count ";
    SplitText("]", " /Count ", tail);
    var rest := Bytes(" /Count ") + tail;
    var bs := Kids(0, count) + (Bytes("]") + rest);
    if count == 0 {
      assert bs == Bytes("]") + rest && KidNumbers(0, 0) == [];
      SkipBytes("]", rest);
    } else {
      KidsRead(0, count, rest);
      DecBytes(4);
      assert bs[0] == Bytes(Dec(4))[0] && Bytes("]")[0] == 93;
    }
  }

  // ----- The whole document -----

  lemma {:induction false} PageObjectsAt(streams: seq<Blob>, p: nat)
    requires p < |streams|
    ensures PageObjects(streams)[2 * p] == Page(p) && PageObjects(streams)[2 * p + 1] == Stream(streams[p])
    decreases |streams|
  {
    if p < |streams| - 1 {
      PageObjectsAt(streams[..|streams| - 1], p);
    }
  }

  /** Object numbers and kinds: 1 to 3 are the catalog, the page tree and the font, then
      each page has the even number that /Kids lists and its stream the odd one after. */
  lemma DocumentAt(streams: seq<Blob>, p: nat)
    requires p < |streams|
    ensures |Document(streams)| == 3 + 2 * |streams|
    ensures Document(streams)[3 + 2 * p] == Page(p)
    ensures Document(streams)[4 + 2 * p] == Stream(streams[p])
  {
    PageObjectsAt(streams, p);
  }

  predicate Small(bodies: seq<Blob>) { forall k :: 0 <= k < |bodies| ==> Offset(bodies, k) < Pow10(10) }

  const END: string := "\nendobj\n"

  /** `fetch` finds object `k + 1`. */
  predicate Has(fetch: nat -> Option<Blob>, k: nat, body: Blob) {
    fetch(k + 1).Some? && body + Bytes(END) <= fetch(k + 1).value
  }

  lemma Rest(bs: Blob, front: Blob) returns (rest: Blob)
    requires front <= bs
    ensures bs == front + rest
  {
    rest := bs[|front|..];
  }

  lemma CatalogIn(bs: Blob)
    requires Catalog() + Bytes(END) <= bs
    ensures ReadCatalog(bs) == Some(2)
  {
    var rest := Rest(bs, Catalog() + Bytes(END));
    Shape3(Catalog(), Bytes(END), rest);
    CatalogReads(Bytes(END) + rest);
  }

  lemma PagesIn(bs: Blob, count: nat)
    requires Pages(count) + Bytes(END) <= bs
    ensures ReadPages(bs) == Some(PageTree(KidNumbers(0, count), count, 3))
  {
    var rest := Rest(bs, Pages(count) + Bytes(END));
    Shape3(Pages(count), Bytes(END), rest);
    PagesRead(count, Bytes(END) + rest);
  }

  lemma FontIn(bs: Blob)
    requires Font() + Bytes(END) <= bs
    ensures ReadFont(bs).Some?
  {
    var rest := Rest(bs, Font() + Bytes(END));
    FontReads(Bytes(END), rest);
  }

  lemma PageIn(bs: Blob, p: nat)
    requires Page(p) + Bytes(END) <= bs
    ensures ReadPage(bs) == Some(PageNode(2, 5 + 2 * p))
  {
    var rest := Rest(bs, Page(p) + Bytes(END));
    Shape3(Page(p), Bytes(END), rest);
    PageReads(p, Bytes(END) + rest);
  }

  lemma StreamIn(bs: Blob, data: Blob)
    requires Stream(data) + Bytes(END) <= bs
    ensures ReadStream(bs) == Some(data)
  {
    var rest := Rest(bs, Stream(data) + Bytes(END));
    StreamReads(data, rest);
  }

  lemma PageData(fetch: nat -> Option<Blob>, p: nat, data: Blob)
    requires Has(fetch, 3 + 2 * p, Page(p)) && Has(fetch, 4 + 2 * p, Stream(data))
    ensures ReadPageData(fetch, 2, 4 + 2 * p) == Some(data)
  {
    PageIn(fetch(4 + 2 * p).value, p);
    StreamIn(fetch(5 + 2 * p).value, data);
  }

  lemma Tree(fetch: nat -> Option<Blob>, count: nat)
    requires Has(fetch, 0, Catalog()) && Has(fetch, 1, Pages(count)) && Has(fetch, 2, Font())
    ensures ReadTree(fetch, Kinds(), 1) == Some((2, PageTree(KidNumbers(0, count), count, 3)))
  {
    CatalogIn(fetch(1).value);
    PagesIn(fetch(2).value, count);
    FontIn(fetch(3).value);
    TreeFound(fetch, Kinds(), 1, 2, PageTree(KidNumbers(0, count), count, 3));
  }

  lemma TreeFound(fetch: nat -> Option<Blob>, readers: Readers, root: nat, pages: nat, tree: PageTree)
    requires fetch(root).Some? && readers.catalog(fetch(root).value) == Some(pages)
    requires fetch(pages).Some? && readers.tree(fetch(pages).value) == Some(tree)
    requires fetch(tree.font).Some? && readers.font(fetch(tree.font).value).Some?
    requires tree.count == |tree.kids|
    ensures ReadTree(fetch, readers, root) == Some((pages, tree))
  {
  }

  lemma TreeIn(fetch: nat -> Option<Blob>, bodies: seq<Blob>, streams: seq<Blob>)
    requires bodies == Document(streams)
    requires forall k :: 0 <= k < |bodies| ==> Has(fetch, k, bodies[k])
    ensures ReadTree(fetch, Kinds(), 1) == Some((2, PageTree(KidNumbers(0, |streams|), |streams|, 3)))
  {
    assert Has(fetch, 0, bodies[0]) && Has(fetch, 1, bodies[1]) && Has(fetch, 2, bodies[2]);
    Tree(fetch, |streams|);
  }

  lemma Gather(fetch: nat -> Option<Blob>, kids: seq<nat>, font: nat, streams: seq<Blob>)
    requires ReadTree(fetch, Kinds(), 1) == Some((2, PageTree(kids, |kids|, font)))
    requires |kids| == |streams| && forall p :: 0 <= p < |kids| ==> kids[p] == 4 + 2 * p
    requires forall p :: 0 <= p < |streams| ==> ReadPageData(fetch, 2, 4 + 2 * p) == Some(streams[p])
    ensures ReadFrom(fetch, 1) == Some(streams)
  {
    CollectAll(kid => ReadPageData(fetch, 2, kid), kids, streams);
  }

  lemma Walk(fetch: nat -> Option<Blob>, bodies: seq<Blob>, streams: seq<Blob>)
    requires bodies == Document(streams)
    requires forall k :: 0 <= k < |bodies| ==> Has(fetch, k, bodies[k])
    ensures ReadFrom(fetch, 1) == Some(streams)
  {
    TreeIn(fetch, bodies, streams);
    forall p | 0 <= p < |streams| ensures Has(fetch, 3 + 2 * p, Page(p)) && Has(fetch, 4 + 2 * p, Stream(streams[p])) {
      DocumentAt(streams, p);
    }
    AllFound(fetch, streams);
    Gather(fetch, KidNumbers(0, |streams|), 3, streams);
  }

  lemma AllFound(fetch: nat -> Option<Blob>, streams: seq<Blob>)
    requires forall p :: 0 <= p < |streams| ==> Has(fetch, 3 + 2 * p, Page(p)) && Has(fetch, 4 + 2 * p, Stream(streams[p]))
    ensures forall p :: 0 <= p < |streams| ==> ReadPageData(fetch, 2, 4 + 2 * p) == Some(streams[p])
  {
    forall p | 0 <= p < |streams| ensures ReadPageData(fetch, 2, 4 + 2 * p) == Some(streams[p]) {
      PageData(fetch, p, streams[p]);
    }
  }

  lemma FileHas(bodies: seq<Blob>, k: nat)
    requires Small(bodies) && k < |bodies|
    ensures Has(number => Fetch(File(bodies), number), k, bodies[k])
  {
    var rest := RandomAccess(bodies, k);
  }

  lemma {:induction false} CollectAll(read: nat -> Option<Blob>, kids: seq<nat>, streams: seq<Blob>)
    requires |kids| == |streams| && forall i :: 0 <= i < |kids| ==> read(kids[i]) == Some(streams[i])
    ensures Collect(read, kids) == Some(streams)
    decreases |kids|
  {
    if kids == [] {
      assert streams == [];
    } else {
      CollectAll(read, kids[1..], streams[1..]);
      assert [streams[0]] + streams[1..] == streams;
    }
  }

  lemma EntriesOf(bodies: seq<Blob>)
    requires Small(bodies)
    ensures |Entries(Offsets(bodies))| == 20 * |bodies|
  {
    var parts: seq<Blob> := Map(Entry, Offsets(bodies));
    forall i | 0 <= i < |parts| ensures |parts[i]| == 20 {
      PaddedEntry(Offset(bodies, i));
    }
    EqualLength(parts);
  }

  lemma SkipTable(first: Blob, entries: Blob, trailer: Blob, n: nat)
    requires |first| == 20 && |entries| == 20 * n
    ensures |first + (entries + trailer)| >= 20 * (n + 1)
    ensures (first + (entries + trailer))[20 * (n + 1)..] == trailer
  {
  }

  lemma RootReads(bodies: seq<Blob>)
    requires Small(bodies)
    ensures ReadRoot(File(bodies)) == Some(1)
  {
    FileTable(bodies);
    EntriesOf(bodies);
    FirstEntry();
    var n, xref := |bodies|, |Objects(bodies)|;
    SkipTable(Bytes("0000000000 65535 f \n"), Entries(Offsets(bodies)), Trailer(n, xref), n);
    TrailerReads(n, xref);
  }

  lemma TrailerReads(n: nat, xref: nat)
    ensures Skip(Trailer(n, xref), "trailer\n<< /Size ").Some?
    ensures ReadNat(Skip(Trailer(n, xref), "trailer\n<< /Size ").value).Some?
    ensures var r := ReadNat(Skip(Trailer(n, xref), "trailer\n<< /Size ").value).value;
      r.0 == n + 1 && Skip(r.1, " /Root ").Some? && ReadRef(Skip(r.1, " /Root ").value).Some?
      && ReadRef(Skip(r.1, " /Root ").value).value.0 == 1
  {
    var end := Bytes("startxref\n") + (Bytes(Dec(xref)) + Bytes("\n%%EOF\n"));
    var tail := Bytes(" >>\n") + end;
    Shape6(Bytes("trailer\n<< /Size "), Bytes(Dec(n + 1)), Bytes(" /Root 1 0 R >>\n"),
      Bytes("startxref\n"), Bytes(Dec(xref)), Bytes("\n%%EOF\n"));
    assert " /Root 1 0 R >>\n" == " /Root " + (Dec(1) + (" 0 R" + " >>\n"));
    SplitText(" /Root ", Dec(1) + (" 0 R" + " >>\n"), end);
    SplitText(Dec(1), " 0 R" + " >>\n", end);
    SplitText(" 0 R", " >>\n", end);
    var root := Bytes(Dec(1)) + (Bytes(" 0 R") + tail);
    SkipBytes("trailer\n<< /Size ", Bytes(Dec(n + 1)) + (Bytes(" /Root ") + root));
    ReadNatBytes(n + 1, Bytes(" /Root ") + root);
    SkipBytes(" /Root ", root);
    ReadRefBytes(1, tail);
  }

  lemma SmallFile(bodies: seq<Blob>)
    requires bodies != [] && Offset(bodies, |bodies| - 1) < Pow10(10)
    ensures Small(bodies)
  {
    forall k | 0 <= k < |bodies| - 1 ensures Offset(bodies, k) < Pow10(10) {
      OffsetsIncrease(bodies, k, |bodies| - 1);
    }
  }

  lemma {:induction false} LongParts(parts: seq<Blob>, b: byte)
    requires forall i :: 0 <= i < |parts| ==> |parts[i]| >= 20 && b !in parts[i]
    ensures |Concat(parts)| >= 20 * |parts| && b !in Concat(parts)
    ensures parts != [] && |parts[|parts| - 1]| > 20 ==> |Concat(parts)| > 20 * |parts|
  {
    if parts != [] {
      LongParts(parts[1..], b);
    }
  }

  lemma LongTable(bodies: seq<Blob>)
    requires bodies != [] && Offset(bodies, |bodies| - 1) >= Pow10(10)
    ensures |Entries(Offsets(bodies))| > 20 * |bodies| && 't' as int !in Entries(Offsets(bodies))
  {
    var parts: seq<Blob> := Map(Entry, Offsets(bodies));
    forall i | 0 <= i < |parts| ensures |parts[i]| >= 20 && 't' as int !in parts[i] {
      EntryBytes(Offset(bodies, i));
    }
    EntryBytes(Offset(bodies, |bodies| - 1));
    LongParts(parts, 't' as int);
  }

  lemma NotTrailer(first: Blob, entries: Blob, trailer: Blob, n: nat)
    requires |first| == 20 && |entries| > 20 * n && 't' as int !in entries
    ensures |first + (entries + trailer)| >= 20 * (n + 1)
    ensures Skip((first + (entries + trailer))[20 * (n + 1)..], "trailer\n<< /Size ") == None
  {
    var rest := (first + (entries + trailer))[20 * (n + 1)..];
    assert rest[0] == entries[20 * n];
    assert "trailer\n<< /Size "[0] == 't' && Bytes("trailer\n<< /Size ")[0] == 't' as int;
  }

  /** An entry of more than 20 bytes moves the trailer from where a reader looks. */
  lemma NoRoot(bodies: seq<Blob>)
    requires bodies != [] && Offset(bodies, |bodies| - 1) >= Pow10(10)
    ensures ReadRoot(File(bodies)) == None
  {
    FileTable(bodies);
    LongTable(bodies);
    FirstEntry();
    var n := |bodies|;
    NotTrailer(Bytes("0000000000 65535 f \n"), Entries(Offsets(bodies)), Trailer(n, |Objects(bodies)|), n);
  }

  /** Reading back what was written: from the end of the file through the table, the
      catalog, the page tree and each page to every page's stream, byte for byte, exactly
      when the last object's offset fits its entry. */
  lemma DocumentRoundTrip(streams: seq<Blob>)
    ensures ReadDocument(File(Document(streams))) == Some(streams)
       <==> Offset(Document(streams), |Document(streams)| - 1) < Pow10(10)
  {
    var bodies := Document(streams);
    if Offset(bodies, |bodies| - 1) < Pow10(10) {
      SmallFile(bodies);
      RoundTrip(bodies, streams);
    } else {
      NoRoot(bodies);
    }
  }

  lemma RoundTrip(bodies: seq<Blob>, streams: seq<Blob>)
    requires bodies == Document(streams) && Small(bodies)
    ensures ReadDocument(File(bodies)) == Some(streams)
  {
    RootReads(bodies);
    FileHeader(bodies);
    FileWalks(File(bodies), bodies, streams);
    ViaRoot(File(bodies), 1);
  }

  lemma FileWalks(file: Blob, bodies: seq<Blob>, streams: seq<Blob>)
    requires file == File(bodies) && bodies == Document(streams) && Small(bodies)
    ensures ReadFrom(number => Fetch(file, number), 1) == Some(streams)
  {
    forall k | 0 <= k < |bodies| ensures Has(number => Fetch(file, number), k, bodies[k]) {
      FileHas(bodies, k);
    }
    Walk(number => Fetch(file, number), bodies, streams);
  }

  lemma ViaRoot(file: Blob, root: nat)
    requires ReadRoot(file) == Some(root) && HasHeader(file)
    ensures ReadDocument(file) == ReadFrom(number => Fetch(file, number), root)
  {
  }

  lemma FontReads(end: Blob, rest: Blob)
    ensures ReadFont(Font() + end + rest).Some?
  {
    var tail := "/Subtype /Type1 /BaseFont /Helvetica /Encoding /WinAnsiEncoding >>";
    Shape4(Bytes("<< /Type /Font "), Bytes(tail), end, rest);
    SkipBytes("<< /Type /Font ", Bytes(tail) + (end + rest));
    SkipBytes(tail, end + rest);
  }
}
