/** What an edit of a value means for the document it was read from
    (fuzz/fuzz_targets/json_edit.rs:158-225): the edited value is the value of the edited
    document, with every other member and element in its old order. */
module JsonDocument {
  import opened Common
  import opened JsonValue
  import opened JsonBuild
  import opened JsonPath

  // ----- Editing a document, where a key may be repeated -----

  /** The field that gives key `k` its value: the last one. */
  function LastField(fields: seq<Field>, k: Units): (r: Option<nat>)
    ensures r.Some? ==> r.value < |fields| && UnitsOf(fields[r.value].key) == k
  {
    if fields == [] then None
    else
      var n := |fields| - 1;
      if UnitsOf(fields[n].key) == k then Some(n) else LastField(fields[..n], k)
  }

  /** The fields with another key than `k`, in order. */
  function Erase(fields: seq<Field>, k: Units): seq<Field> {
    if fields == [] then []
    else
      var n := |fields| - 1;
      Erase(fields[..n], k) + if UnitsOf(fields[n].key) == k then [] else [fields[n]]
  }

  /** A member is set by one more field at the end, and removed by erasing its fields; an
      element is replaced, appended or left out. */
  function EditDocument(s: Src, path: Path, put: Option<Src>): Option<Src> {
    if path == [] then put
    else
      match (s, path[0])
      case (SObj(fields), Key(k)) =>
        var u := EncodeUtf16(k);
        if |path| == 1 then Some(SObj(if put.Some? then fields + [Field(TextStr(k), put.value)] else Erase(fields, u)))
        else
          var j :- LastField(fields, u);
          var w :- EditDocument(fields[j].value, path[1..], put);
          Some(SObj(fields[j := Field(fields[j].key, w)]))
      case (SArr(items), Index(i)) =>
        if i < |items| then
          if |path| == 1 && put.None? then Some(SArr(items[..i] + items[i + 1..]))
          else
            var w :- EditDocument(items[i], path[1..], put);
            Some(SArr(items[..i] + [w] + items[i + 1..]))
        else if |path| == 1 then Some(SArr(if put.Some? then items + [put.value] else items))
        else None
      case _ => None
  }

  function MeaningOr(put: Option<Src>): Option<V> {
    match put case None => None case Some(s) => Some(Meaning(s))
  }

  // ----- Objects -----

  lemma PutTwice(ms: seq<Member>, k: Units, v: V, w: V)
    ensures PutMember(PutMember(ms, k, v), k, w) == PutMember(ms, k, w)
  {
    MembersTwice(ms, k, v, w);
  }

  lemma PutCommutes(ms: seq<Member>, k: Units, u: Units, v: V, w: V)
    requires k != u && Find(ms, k).Some?
    ensures PutMember(PutMember(ms, k, v), u, w) == PutMember(PutMember(ms, u, w), k, v)
  {
    var i := Find(ms, k).value;
    match Find(ms, u)
    case Some(j) =>
      FindStill(ms, i, v, u);
      FindStill(ms, j, w, k);
      Swapped(ms, i, Member(ms[i].key, v), j, Member(ms[j].key, w));
    case None =>
      FindStill(ms, i, v, u);
      FindAppended(ms, Member(u, w), k);
      UpdateBefore(ms, i, Member(ms[i].key, v), Member(u, w));
  }

  lemma Swapped<T>(xs: seq<T>, i: nat, a: T, j: nat, b: T)
    requires i < |xs| && j < |xs| && i != j
    ensures xs[i := a][j := b] == xs[j := b][i := a]
    ensures xs[i := a][j] == xs[j] && xs[j := b][i] == xs[i]
  {
  }

  lemma UpdateBefore<T>(xs: seq<T>, i: nat, a: T, last: T)
    requires i < |xs|
    ensures xs[i := a] + [last] == (xs + [last])[i := a]
    ensures (xs + [last])[i] == xs[i]
  {
  }

  lemma {:induction false} LastWins(fields: seq<Field>, k: Units)
    ensures Lookup(Members(fields), k)
         == match LastField(fields, k) case None => None case Some(j) => Some(Meaning(fields[j].value))
  {
    if fields != [] {
      var init, f := fields[..|fields| - 1], fields[|fields| - 1];
      LastWins(init, k);
      PutMemberLooks(Members(init), UnitsOf(f.key), Meaning(f.value), k);
    }
  }

  lemma MembersSnoc(fields: seq<Field>, f: Field)
    ensures Members(fields + [f]) == PutMember(Members(fields), UnitsOf(f.key), Meaning(f.value))
  {
    assert (fields + [f])[..|fields|] == fields;
    assert MeaningOf(f) == Member(UnitsOf(f.key), Meaning(f.value));
  }

  /** Giving the last field of a key another value. */
  lemma {:induction false} ReplaceLast(fields: seq<Field>, k: Units, w: Src)
    requires LastField(fields, k).Some?
    ensures var j := LastField(fields, k).value;
      Members(fields[j := Field(fields[j].key, w)]) == PutMember(Members(fields), k, Meaning(w))
    decreases |fields|
  {
    var j, n := LastField(fields, k).value, |fields| - 1;
    var init, f := fields[..n], fields[n];
    var g := Field(fields[j].key, w);
    MembersSnoc(init, f);
    assert init + [f] == fields;
    if j == n {
      MembersSnoc(init, g);
      assert fields[j := g] == init + [g];
      PutTwice(Members(init), k, Meaning(f.value), Meaning(w));
    } else {
      ReplaceLast(init, k, w);
      MembersSnoc(init[j := g], f);
      assert fields[j := g] == init[j := g] + [f];
      LastWins(init, k);
      PutCommutes(Members(init), k, UnitsOf(f.key), Meaning(w), Meaning(f.value));
    }
  }

  /** The members with another key than `k`, in order. */
  function Others(ms: seq<Member>, k: Units): seq<Member> {
    if ms == [] then []
    else
      var n := |ms| - 1;
      Others(ms[..n], k) + if ms[n].key == k then [] else [ms[n]]
  }

  lemma {:induction false} OthersAll(ms: seq<Member>, k: Units)
    requires forall i :: 0 <= i < |ms| ==> ms[i].key != k
    ensures Others(ms, k) == ms
  {
    if ms != [] {
      OthersAll(ms[..|ms| - 1], k);
    }
  }

  lemma OthersSnoc(ms: seq<Member>, m: Member, k: Units)
    ensures Others(ms + [m], k) == Others(ms, k) + if m.key == k then [] else [m]
  {
    assert (ms + [m])[..|ms|] == ms;
  }

  lemma WithoutSnoc<T>(init: seq<T>, last: T, j: nat)
    requires j <= |init|
    ensures Without(init + [last], j) == if j == |init| then init else Without(init, j) + [last]
  {
  }

  /** A removal keeps all other members, in their old order. */
  lemma {:induction false} RemoveKeepsOrder(ms: seq<Member>, k: Units)
    requires UniqueKeys(ms)
    ensures EditMembers(ms, k, None) == Others(ms, k)
    decreases |ms|
  {
    if ms != [] {
      var n := |ms| - 1;
      var init, last := ms[..n], ms[n];
      assert init + [last] == ms;
      OthersSnoc(init, last, k);
      FindAppended(init, last, k);
      RemoveKeepsOrder(init, k);
      match Find(ms, k)
      case None =>
      case Some(j) =>
        WithoutSnoc(init, last, j);
        if j == n {
          OthersAll(init, k);
        } else {
          assert ms[n].key != ms[j].key;
        }
    }
  }

  lemma PutSnoc(ms: seq<Member>, last: Member, u: Units, v: V)
    ensures PutMember(ms + [last], u, v)
         == if Find(ms, u).Some? then PutMember(ms, u, v) + [last]
            else if last.key == u then ms + [Member(u, v)]
            else ms + [last] + [Member(u, v)]
  {
    FindAppended(ms, last, u);
    match Find(ms, u)
    case Some(i) => UpdateBefore(ms, i, Member(ms[i].key, v), last);
    case None =>
  }

  lemma {:induction false} OthersFind(ms: seq<Member>, k: Units, u: Units)
    requires u != k
    ensures Find(Others(ms, k), u).Some? <==> Find(ms, u).Some?
    decreases |ms|
  {
    if ms != [] {
      var n := |ms| - 1;
      var init, last := ms[..n], ms[n];
      assert init + [last] == ms;
      OthersFind(init, k, u);
      FindAppended(init, last, u);
      OthersSnoc(init, last, k);
      if last.key == k {
        assert Others(init, k) + [] == Others(init, k);
      } else {
        FindAppended(Others(init, k), last, u);
      }
    }
  }

  lemma {:induction false} OthersOfPut(ms: seq<Member>, k: Units, u: Units, v: V)
    ensures Others(PutMember(ms, u, v), k) == if u == k then Others(ms, k) else PutMember(Others(ms, k), u, v)
    decreases |ms|
  {
    if ms == [] {
      assert PutMember([], u, v) == [] + [Member(u, v)];
      OthersSnoc([], Member(u, v), k);
    } else {
      var n := |ms| - 1;
      var init, last := ms[..n], ms[n];
      assert init + [last] == ms;
      OthersOfPut(init, k, u, v);
      PutSnoc(init, last, u, v);
      OthersSnoc(init, last, k);
      OthersPutStep(init, last, k, u, v);
    }
  }

  lemma OthersPutStep(init: seq<Member>, last: Member, k: Units, u: Units, v: V)
    requires Others(PutMember(init, u, v), k) == if u == k then Others(init, k) else PutMember(Others(init, k), u, v)
    ensures Others(PutMember(init + [last], u, v), k)
         == if u == k then Others(init + [last], k) else PutMember(Others(init + [last], k), u, v)
  {
    PutSnoc(init, last, u, v);
    OthersSnoc(init, last, k);
    OthersPutSnoc(init, last, k, u, v);
    assert Others(init, k) + [] == Others(init, k);
    if u != k {
      OthersFind(init, k, u);
      PutSnoc(Others(init, k), last, u, v);
    }
  }

  lemma OthersPutSnoc(init: seq<Member>, last: Member, k: Units, u: Units, v: V)
    ensures var more := if u == k then [] else [Member(u, v)];
      Others(PutMember(init + [last], u, v), k)
      == if Find(init, u).Some? then Others(PutMember(init, u, v), k) + if last.key == k then [] else [last]
         else if last.key == u then Others(init, k) + more
         else Others(init + [last], k) + more
  {
    var m := Member(u, v);
    PutSnoc(init, last, u, v);
    if Find(init, u).Some? {
      OthersSnoc(PutMember(init, u, v), last, k);
    } else {
      OthersSnoc(init, m, k);
      OthersSnoc(init + [last], m, k);
    }
  }

  lemma EraseSnoc(fields: seq<Field>, f: Field, k: Units)
    ensures Erase(fields + [f], k) == if UnitsOf(f.key) == k then Erase(fields, k) else Erase(fields, k) + [f]
  {
    assert (fields + [f])[..|fields|] == fields;
    assert Erase(fields, k) + [] == Erase(fields, k);
  }

  /** Erasing a key's fields removes its member and keeps the order of the others. */
  predicate Erases(fields: seq<Field>, k: Units) { Members(Erase(fields, k)) == Others(Members(fields), k) }

  lemma {:induction false} EraseKey(fields: seq<Field>, k: Units)
    ensures Erases(fields, k)
    decreases |fields|
  {
    if fields != [] {
      var init, f := fields[..|fields| - 1], fields[|fields| - 1];
      EraseKey(init, k);
      assert fields == init + [f];
      EraseStep(fields, init, f, k);
    }
  }

  lemma EraseStep(fields: seq<Field>, init: seq<Field>, f: Field, k: Units)
    requires fields == init + [f] && Erases(init, k)
    ensures Erases(fields, k)
  {
    EraseSnoc(init, f, k);
    MembersSnoc(init, f);
    OthersOfPut(Members(init), k, UnitsOf(f.key), Meaning(f.value));
    if UnitsOf(f.key) != k {
      MembersSnoc(Erase(init, k), f);
    }
  }

  // ----- Arrays -----

  lemma {:induction false} MeaningAllAt(items: seq<Src>)
    ensures |MeaningAll(items)| == |items|
    ensures forall i :: 0 <= i < |items| ==> MeaningAll(items)[i] == Meaning(items[i])
    decreases |items|
  {
    if items != [] {
      MeaningAllAt(items[..|items| - 1]);
    }
  }

  lemma MapPut<A, B>(f: A -> B, xs: seq<A>, i: nat, y: A)
    requires i < |xs|
    ensures Map(f, xs[..i] + [y] + xs[i + 1..]) == Map(f, xs)[i := f(y)]
  {
  }

  lemma MapOut<A, B>(f: A -> B, xs: seq<A>, i: nat)
    requires i < |xs|
    ensures Map(f, xs[..i] + xs[i + 1..]) == Without(Map(f, xs), i)
  {
  }

  lemma MapAppended<A, B>(f: A -> B, xs: seq<A>, y: A)
    ensures Map(f, xs + [y]) == Map(f, xs) + [f(y)]
  {
  }

  lemma MeaningAllMaps(items: seq<Src>)
    ensures MeaningAll(items) == Map(Meaning, items)
  {
    MeaningAllAt(items);
  }

  lemma ItemPut(items: seq<Src>, i: nat, w: Src)
    requires i < |items|
    ensures |MeaningAll(items)| == |items|
    ensures MeaningAll(items[..i] + [w] + items[i + 1..]) == MeaningAll(items)[i := Meaning(w)]
  {
    MeaningAllMaps(items);
    MeaningAllMaps(items[..i] + [w] + items[i + 1..]);
    MapPut(Meaning, items, i, w);
  }

  lemma ItemOut(items: seq<Src>, i: nat)
    requires i < |items|
    ensures |MeaningAll(items)| == |items|
    ensures MeaningAll(items[..i] + items[i + 1..]) == Without(MeaningAll(items), i)
  {
    MeaningAllMaps(items);
    MeaningAllMaps(items[..i] + items[i + 1..]);
    MapOut(Meaning, items, i);
  }

  lemma ItemAppended(items: seq<Src>, w: Src)
    ensures |MeaningAll(items)| == |items| && MeaningAll(items + [w]) == MeaningAll(items) + [Meaning(w)]
  {
    MeaningAllMaps(items);
    MeaningAllMaps(items + [w]);
    MapAppended(Meaning, items, w);
  }

  lemma ItemsEdited(items: seq<Src>, i: nat, put: Option<Src>)
    ensures |MeaningAll(items)| == |items|
    ensures put.Some? && i < |items| ==>
      EditItems(MeaningAll(items), i, MeaningOr(put)) == MeaningAll(items[..i] + [put.value] + items[i + 1..])
    ensures put.Some? && i >= |items| ==> EditItems(MeaningAll(items), i, MeaningOr(put)) == MeaningAll(items + [put.value])
    ensures put.None? ==>
      EditItems(MeaningAll(items), i, None) == MeaningAll(if i < |items| then items[..i] + items[i + 1..] else items)
  {
    MeaningAllAt(items);
    match put
    case Some(w) =>
      if i < |items| {
        ItemPut(items, i, w);
      } else {
        ItemAppended(items, w);
      }
    case None =>
      if i < |items| {
        ItemOut(items, i);
      }
  }

  // ----- At any depth -----

  lemma MembersEdited(fields: seq<Field>, k: string, put: Option<Src>)
    ensures EditMembers(Members(fields), EncodeUtf16(k), MeaningOr(put))
         == Members(if put.Some? then fields + [Field(TextStr(k), put.value)] else Erase(fields, EncodeUtf16(k)))
  {
    if put.Some? {
      MembersSnoc(fields, Field(TextStr(k), put.value));
    } else {
      MeaningUnique(SObj(fields));
      RemoveKeepsOrder(Members(fields), EncodeUtf16(k));
      EraseKey(fields, EncodeUtf16(k));
    }
  }

  lemma ObjectEdited(fields: seq<Field>, path: Path, put: Option<Src>)
    requires |path| > 1 && path[0].Key?
    requires var j := LastField(fields, EncodeUtf16(path[0].k)); j.Some? ==>
      Apply(Meaning(fields[j.value].value), path[1..], MeaningOr(put))
      == MeaningOr(EditDocument(fields[j.value].value, path[1..], put))
    ensures Apply(Obj(Members(fields)), path, MeaningOr(put)) == MeaningOr(EditDocument(SObj(fields), path, put))
  {
    var u := EncodeUtf16(path[0].k);
    LastWins(fields, u);
    if LastField(fields, u).Some? {
      var w := EditDocument(fields[LastField(fields, u).value].value, path[1..], put);
      if w.Some? {
        ReplaceLast(fields, u, w.value);
      }
    }
  }

  lemma ArrayEdited(items: seq<Src>, path: Path, put: Option<Src>)
    requires |path| > 1 && path[0].Index?
    requires path[0].i < |items| ==>
      Apply(Meaning(items[path[0].i]), path[1..], MeaningOr(put)) == MeaningOr(EditDocument(items[path[0].i], path[1..], put))
    ensures Apply(Arr(MeaningAll(items)), path, MeaningOr(put)) == MeaningOr(EditDocument(SArr(items), path, put))
  {
    var i := path[0].i;
    MeaningAllAt(items);
    if i < |items| {
      var w := EditDocument(items[i], path[1..], put);
      if w.Some? {
        ItemPut(items, i, w.value);
      }
    }
  }

  lemma LastKey(fields: seq<Field>, k: string, put: Option<Src>)
    ensures Apply(Obj(Members(fields)), [Key(k)], MeaningOr(put)) == MeaningOr(EditDocument(SObj(fields), [Key(k)], put))
  {
    MembersEdited(fields, k, put);
  }

  lemma LastIndex(items: seq<Src>, i: nat, put: Option<Src>)
    ensures Apply(Arr(MeaningAll(items)), [Index(i)], MeaningOr(put)) == MeaningOr(EditDocument(SArr(items), [Index(i)], put))
  {
    ItemsEdited(items, i, put);
  }

  lemma LastStep(s: Src, step: Segment, put: Option<Src>)
    ensures Apply(Meaning(s), [step], MeaningOr(put)) == MeaningOr(EditDocument(s, [step], put))
  {
    match (s, step)
    case (SObj(fields), Key(k)) => LastKey(fields, k, put);
    case (SArr(items), Index(i)) => LastIndex(items, i, put);
    case _ =>
  }

  /** An edit of a document's value is the value of the edited document, on every path and
      at any depth; and one is possible exactly when the other is. */
  lemma {:induction false} EditMeansEdit(s: Src, path: Path, put: Option<Src>)
    ensures Apply(Meaning(s), path, MeaningOr(put)) == MeaningOr(EditDocument(s, path, put))
    decreases |path|
  {
    if |path| == 1 {
      assert path == [path[0]];
      LastStep(s, path[0], put);
    } else if path != [] {
      match (s, path[0])
      case (SObj(fields), Key(k)) =>
        var j := LastField(fields, EncodeUtf16(k));
        if j.Some? {
          EditMeansEdit(fields[j.value].value, path[1..], put);
        }
        ObjectEdited(fields, path, put);
      case (SArr(items), Index(i)) =>
        if i < |items| {
          EditMeansEdit(items[i], path[1..], put);
        }
        ArrayEdited(items, path, put);
      case _ =>
    }
  }

  /** What the target compares: on every document and all input bytes, the value it wants
      is what the builder makes of the events of the edited document. */
  lemma WantedIsRead(s: Src, op: u8, rest: seq<u8>)
    ensures var e := Edit(op, rest, Meaning(s));
      var d := EditDocument(s, e.path, if e.put.Some? then Some(Source(e.put.value)) else None);
      && d.Some?
      && Run(Events(d.value)) == Some(BuildState([], [], Apply(Meaning(s), e.path, e.put)))
  {
    var e := Edit(op, rest, Meaning(s));
    BuildsMeaning(s);
    GrammarIsDocuments(Events(s), s);
    OracleTotal(Events(s), Meaning(s), op, rest);
    var put := if e.put.Some? then Some(Source(e.put.value)) else None;
    if e.put.Some? {
      ValuesUnique(op / 4 % |Values()|);
      MeaningOfSource(e.put.value);
    }
    EditMeansEdit(s, e.path, put);
    BuildsMeaning(EditDocument(s, e.path, put).value);
  }
}
