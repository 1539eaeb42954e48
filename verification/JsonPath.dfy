/** `pick` and `apply` of the edit oracle (fuzz/fuzz_targets/json_edit.rs:124-196), and
    the target's use of them (lines 198-225). */
module JsonPath {
  import opened Common
  import opened Decimal
  import opened JsonValue
  import opened JsonBuild

  type u8 = n: int | 0 <= n < 256

  datatype Segment = Key(k: string) | Index(i: nat)
  type Path = seq<Segment>

  // ----- pick -----

  function NewKey(c: u8): Segment { Key("new" + Dec(c)) }

  function Pick(v: V, choices: seq<u8>): Path {
    if choices == [] then []
    else
      var c := choices[0];
      if v.Obj? && v.members != [] && c % 4 != 0 then
        var m := v.members[c % |v.members|];
        match DecodeUtf16(m.key)
        case None => []
        case Some(k) => [Key(k)] + Pick(m.value, choices[1..])
      else if v.Obj? then [NewKey(c)]
      else if v.Arr? then
        var i := c % (|v.items| + 1);
        [Index(i)] + if i < |v.items| then Pick(v.items[i], choices[1..]) else []
      else []
  }

  lemma Onward(path: Path, s: Segment, rest: Path)
    ensures path + ([s] + rest) == (path + [s]) + rest
    ensures path + [s] + [] == path + [s]
  {
  }

  /** The source's loop, which walks `at` down the value and collects the path. */
  method PickLoop(value: V, choices: seq<u8>) returns (path: Path)
    ensures path == Pick(value, choices)
  {
    path := [];
    var at := value;
    var n := 0;
    while n < |choices|
      invariant 0 <= n <= |choices|
      invariant path + Pick(at, choices[n..]) == Pick(value, choices)
    {
      var choice := choices[n];
      ghost var rest := choices[n + 1..];
      assert choices[n..][0] == choice && choices[n..][1..] == rest;
      match at {
        case Obj(members) =>
          if members != [] && choice % 4 != 0 {
            var m := members[choice % |members|];
            var key := DecodeUtf16(m.key);
            if key.None? {
              return;
            }
            Onward(path, Key(key.value), Pick(m.value, rest));
            path := path + [Key(key.value)];
            at := m.value;
          } else {
            return path + [NewKey(choice)];
          }
        case Arr(items) =>
          var i := choice % (|items| + 1);
          if i == |items| {
            Onward(path, Index(i), []);
            return path + [Index(i)];
          }
          Onward(path, Index(i), Pick(items[i], rest));
          path := path + [Index(i)];
          at := items[i];
        case _ => return;
      }
      n := n + 1;
    }
  }

  // ----- apply; None where the Rust code panics -----

  function Child(v: V, s: Segment): Option<V> {
    match (v, s)
    case (Obj(ms), Key(k)) => Lookup(ms, EncodeUtf16(k))
    case (Arr(items), Index(i)) => if i < |items| then Some(items[i]) else None
    case _ => None
  }

  /** What a write through the reference to one child leaves. */
  function Replace(v: V, s: Segment, w: V): V
    requires Child(v, s).Some?
  {
    match v
    case Obj(ms) => var j := Find(ms, EncodeUtf16(s.k)).value; Obj(ms[j := Member(ms[j].key, w)])
    case Arr(items) => Arr(items[s.i := w])
  }

  /** The last step. */
  function EditLast(v: V, s: Segment, put: Option<V>): Option<V> {
    match (v, s)
    case (Obj(ms), Key(k)) => Some(Obj(EditMembers(ms, EncodeUtf16(k), put)))
    case (Arr(items), Index(i)) => Some(Arr(EditItems(items, i, put)))
    case _ => None
  }

  function EditMembers(ms: seq<Member>, k: Units, put: Option<V>): seq<Member> {
    match Find(ms, k)
    case Some(j) => if put.Some? then ms[j := Member(ms[j].key, put.value)] else Without(ms, j)
    case None => if put.Some? then ms + [Member(k, put.value)] else ms
  }

  function EditItems(items: seq<V>, i: nat, put: Option<V>): seq<V> {
    if put.Some? then (if i < |items| then items[i := put.value] else items + [put.value])
    else if i < |items| then Without(items, i)
    else items
  }

  function Without<T>(xs: seq<T>, j: nat): (r: seq<T>)
    requires j < |xs|
    ensures |r| == |xs| - 1
    ensures forall i :: 0 <= i < |r| ==> r[i] == if i < j then xs[i] else xs[i + 1]
  {
    xs[..j] + xs[j + 1..]
  }

  function Apply(v: V, path: Path, put: Option<V>): Option<V> {
    if path == [] then put
    else if |path| == 1 then EditLast(v, path[0], put)
    else
      var c :- Child(v, path[0]);
      var w :- Apply(c, path[1..], put);
      Some(Replace(v, path[0], w))
  }

  /** The value after `w` was written through the references held along `path`. */
  function WriteBack(trail: seq<V>, path: Path, w: V): V
    requires |trail| <= |path|
    requires forall i :: 0 <= i < |trail| ==> Child(trail[i], path[i]).Some?
  {
    var n := |trail|;
    if n == 0 then w else WriteBack(trail[..n - 1], path, Replace(trail[n - 1], path[n - 1], w))
  }

  lemma Descend(v: V, path: Path, n: nat, put: Option<V>, c: V)
    requires n < |path| - 1 && Child(v, path[n]) == Some(c)
    ensures Apply(v, path[n..], put)
         == match Apply(c, path[n + 1..], put) case None => None case Some(w) => Some(Replace(v, path[n], w))
  {
    assert path[n..][0] == path[n] && path[n..][1..] == path[n + 1..];
  }

  /** The source's loop over the parents of the last segment, which keeps a reference to
      the value at hand: here, the values it passed. `ok` is false where it panics. */
  method ApplyLoop(value: V, path: Path, put: Option<V>) returns (ok: bool, after: V)
    ensures ok == Apply(value, path, put).Some?
    ensures ok ==> after == Apply(value, path, put).value
  {
    if path == [] {
      return put.Some?, if put.Some? then put.value else value;
    }
    var at, trail, n := value, [], 0;
    while n < |path| - 1
      invariant n == |trail| < |path|
      invariant forall i :: 0 <= i < n ==> Child(trail[i], path[i]).Some?
      invariant Apply(value, path, put).Some? == Apply(at, path[n..], put).Some?
      invariant Apply(at, path[n..], put).Some? ==>
        Apply(value, path, put).value == WriteBack(trail, path, Apply(at, path[n..], put).value)
    {
      var c := Child(at, path[n]);
      if c.None? {
        return false, value;
      }
      Descend(at, path, n, put, c.value);
      assert (trail + [at])[..n] == trail;
      trail, at, n := trail + [at], c.value, n + 1;
    }
    assert path[n..] == [path[n]];
    var edited := EditLast(at, path[n], put);
    if edited.None? {
      return false, value;
    }
    after := WriteThrough(trail, path, edited.value);
    ok := true;
  }

  method WriteThrough(trail: seq<V>, path: Path, w: V) returns (root: V)
    requires |trail| <= |path|
    requires forall i :: 0 <= i < |trail| ==> Child(trail[i], path[i]).Some?
    ensures root == WriteBack(trail, path, w)
  {
    root := w;
    var n := |trail|;
    assert trail[..n] == trail;
    while n > 0
      invariant 0 <= n <= |trail|
      invariant WriteBack(trail, path, w) == WriteBack(trail[..n], path, root)
    {
      n := n - 1;
      assert trail[..n + 1][..n] == trail[..n];
      root := Replace(trail[n], path[n], root);
    }
  }

  // ----- Reading, and where a path leads -----

  function Get(v: V, path: Path): Option<V> {
    if path == [] then Some(v)
    else
      var c :- Child(v, path[0]);
      Get(c, path[1..])
  }

  /** Every parent exists, and the last step is of the right kind for its container. */
  predicate Walks(v: V, path: Path) {
    path == []
    || (if |path| == 1 then (v.Obj? && path[0].Key?) || (v.Arr? && path[0].Index?)
        else Child(v, path[0]).Some? && Walks(Child(v, path[0]).value, path[1..]))
  }

  /** Besides, a last array step is at most one past the end. */
  predicate Fits(v: V, path: Path) {
    path == []
    || (if |path| == 1 then (v.Obj? && path[0].Key?) || (v.Arr? && path[0].Index? && path[0].i <= |v.items|)
        else Child(v, path[0]).Some? && Fits(Child(v, path[0]).value, path[1..]))
  }

  lemma {:induction false} FitsWalks(v: V, path: Path)
    requires Fits(v, path)
    ensures Walks(v, path)
    decreases path
  {
    if |path| > 1 {
      FitsWalks(Child(v, path[0]).value, path[1..]);
    }
  }

  /** `apply` avoids every `unwrap`, `expect` and `unreachable!` exactly on the paths
      that walk, the root being only ever replaced. */
  lemma {:induction false} ApplyDefined(v: V, path: Path, put: Option<V>)
    ensures Apply(v, path, put).Some? <==> Walks(v, path) && (path == [] ==> put.Some?)
    decreases path
  {
    if |path| > 1 && Child(v, path[0]).Some? {
      ApplyDefined(Child(v, path[0]).value, path[1..], put);
    }
  }

  lemma ApplyDown(v: V, path: Path, put: Option<V>)
    requires |path| > 1 && Apply(v, path, put).Some?
    ensures Child(v, path[0]).Some? && Apply(Child(v, path[0]).value, path[1..], put).Some?
    ensures Apply(v, path, put).value == Replace(v, path[0], Apply(Child(v, path[0]).value, path[1..], put).value)
  {
  }

  lemma FindStill(ms: seq<Member>, j: nat, w: V, k: Units)
    requires j < |ms|
    ensures Find(ms[j := Member(ms[j].key, w)], k) == Find(ms, k)
  {
    var ns := ms[j := Member(ms[j].key, w)];
    assert forall i :: 0 <= i < |ms| ==> ns[i].key == ms[i].key;
    var a, b := Find(ms, k), Find(ns, k);
    if a.Some? {
      assert ns[a.value].key == k;
    }
    if b.Some? {
      assert ms[b.value].key == k;
    }
  }

  lemma ReplaceChild(v: V, s: Segment, w: V, t: Segment)
    requires Child(v, s).Some?
    ensures Child(Replace(v, s, w), t) == if t == s then Some(w) else Child(v, t)
  {
    match v
    case Obj(ms) =>
      var j := Find(ms, EncodeUtf16(s.k)).value;
      if t.Key? {
        FindStill(ms, j, w, EncodeUtf16(t.k));
        if EncodeUtf16(t.k) == EncodeUtf16(s.k) {
          EncodeInjective(t.k, s.k);
        }
      }
    case Arr(items) =>
  }

  lemma ReplaceTwice(v: V, s: Segment, w: V, x: V)
    requires Child(v, s).Some?
    ensures Child(Replace(v, s, w), s) == Some(w)
    ensures Replace(Replace(v, s, w), s, x) == Replace(v, s, x)
    ensures Replace(v, s, Child(v, s).value) == v
  {
    ReplaceChild(v, s, w, s);
    match v
    case Obj(ms) => FindStill(ms, Find(ms, EncodeUtf16(s.k)).value, w, EncodeUtf16(s.k));
    case Arr(items) =>
  }

  // ----- Laws of set and remove -----

  lemma FindAppended(ms: seq<Member>, m: Member, k: Units)
    ensures Find(ms + [m], k) == if Find(ms, k).Some? then Find(ms, k) else if m.key == k then Some(|ms|) else None
  {
    var ns := ms + [m];
    var a, b := Find(ms, k), Find(ns, k);
    if a.Some? {
      assert ns[a.value].key == k;
    } else if m.key == k {
      assert ns[|ms|].key == k;
    }
  }

  lemma SetHere(v: V, s: Segment, x: V)
    requires Walks(v, [s])
    ensures var w := EditLast(v, s, Some(x)).value;
      (Child(w, s) == Some(x) <==> Fits(v, [s])) && (Fits(v, [s]) ==> Child(w, s).Some?)
  {
    match v
    case Obj(ms) =>
      var k := EncodeUtf16(s.k);
      match Find(ms, k) {
        case Some(j) => FindStill(ms, j, x, k);
        case None => FindAppended(ms, Member(k, x), k);
      }
    case Arr(items) =>
  }

  /** A set reads back exactly when the path fits; the one other walking path, an index
      beyond the end, appends somewhere else. */
  lemma {:induction false} GetAfterSet(v: V, path: Path, x: V)
    requires Walks(v, path)
    ensures Apply(v, path, Some(x)).Some?
    ensures Get(Apply(v, path, Some(x)).value, path) == Some(x) <==> Fits(v, path)
    decreases path
  {
    ApplyDefined(v, path, Some(x));
    if |path| == 1 {
      SetHere(v, path[0], x);
      assert path == [path[0]];
      assert forall c :: Get(c, path[1..]) == Some(c);
    } else if |path| > 1 {
      ApplyDown(v, path, Some(x));
      var c := Child(v, path[0]).value;
      GetAfterSet(c, path[1..], x);
      ReplaceChild(v, path[0], Apply(c, path[1..], Some(x)).value, path[0]);
    }
  }

  /** A second set at the same path hides the first. */
  lemma {:induction false} SetAfterSet(v: V, path: Path, x: V, y: V)
    requires Fits(v, path)
    ensures Apply(v, path, Some(x)).Some?
    ensures Apply(Apply(v, path, Some(x)).value, path, Some(y)) == Apply(v, path, Some(y))
    decreases path
  {
    FitsWalks(v, path);
    ApplyDefined(v, path, Some(x));
    if |path| == 1 {
      SetTwiceHere(v, path[0], x, y);
      assert path == [path[0]];
    } else if |path| > 1 {
      ApplyDown(v, path, Some(x));
      ApplyDefined(v, path, Some(y));
      ApplyDown(v, path, Some(y));
      var c := Child(v, path[0]).value;
      SetAfterSet(c, path[1..], x, y);
      var w := Apply(c, path[1..], Some(x)).value;
      ReplaceTwice(v, path[0], w, Apply(c, path[1..], Some(y)).value);
    }
  }

  lemma MembersTwice(ms: seq<Member>, k: Units, x: V, y: V)
    ensures EditMembers(EditMembers(ms, k, Some(x)), k, Some(y)) == EditMembers(ms, k, Some(y))
  {
    match Find(ms, k)
    case Some(j) => FindStill(ms, j, x, k);
    case None => FindAppended(ms, Member(k, x), k);
  }

  lemma SetTwiceHere(v: V, s: Segment, x: V, y: V)
    requires Fits(v, [s])
    ensures EditLast(EditLast(v, s, Some(x)).value, s, Some(y)) == EditLast(v, s, Some(y))
  {
    match v
    case Obj(ms) => MembersTwice(ms, EncodeUtf16(s.k), x, y);
    case Arr(items) => assert EditItems(EditItems(items, s.i, Some(x)), s.i, Some(y)) == EditItems(items, s.i, Some(y));
  }

  /** Setting what was absent and removing it again restores the value. */
  lemma {:induction false} RemoveAfterSet(v: V, path: Path, x: V)
    requires Fits(v, path) && path != [] && Get(v, path).None?
    ensures Apply(v, path, Some(x)).Some?
    ensures Apply(Apply(v, path, Some(x)).value, path, None) == Some(v)
    decreases path
  {
    FitsWalks(v, path);
    ApplyDefined(v, path, Some(x));
    if |path| == 1 {
      assert path == [path[0]] && forall c :: Get(c, path[1..]) == Some(c);
      match v {
        case Obj(ms) =>
          var k := EncodeUtf16(path[0].k);
          FindAppended(ms, Member(k, x), k);
          assert Without(ms + [Member(k, x)], |ms|) == ms;
        case Arr(items) =>
          assert Without(items + [x], |items|) == items;
      }
    } else {
      ApplyDown(v, path, Some(x));
      var c := Child(v, path[0]).value;
      RemoveAfterSet(c, path[1..], x);
      var w := Apply(c, path[1..], Some(x)).value;
      ReplaceTwice(v, path[0], w, c);
    }
  }

  /** The path just past `path` in the same array; a key has no successor. */
  function Next(path: Path): Path
    requires path != []
  {
    var n := |path| - 1;
    if path[n].Index? then path[..n] + [Index(path[n].i + 1)] else path
  }

  lemma RemoveHere(v: V, s: Segment)
    requires Walks(v, [s]) && Unique(v)
    ensures EditLast(v, s, None).Some?
    ensures s.Key? ==> Child(EditLast(v, s, None).value, s) == None
    ensures s.Index? ==> Child(EditLast(v, s, None).value, s) == Child(v, Index(s.i + 1))
  {
    match v
    case Obj(ms) =>
      var k := EncodeUtf16(s.k);
      match Find(ms, k) {
        case Some(j) =>
          var ns := Without(ms, j);
          assert forall i :: 0 <= i < |ns| ==> ns[i].key != k;
        case None =>
      }
    case Arr(items) =>
  }

  /** After a removal the key is gone, and an index reads what followed it. */
  lemma {:induction false} GetAfterRemove(v: V, path: Path)
    requires Walks(v, path) && path != [] && Unique(v)
    ensures Apply(v, path, None).Some?
    ensures Get(Apply(v, path, None).value, path)
         == if path[|path| - 1].Key? then None else Get(v, Next(path))
    decreases path
  {
    ApplyDefined(v, path, None);
    if |path| == 1 {
      var s := path[0];
      assert path == [s] && forall c :: Get(c, path[1..]) == Some(c);
      RemoveHere(v, s);
      if s.Index? {
        assert Next(path) == [Index(s.i + 1)];
        assert forall c :: Get(c, Next(path)[1..]) == Some(c);
      }
    } else {
      ApplyDown(v, path, None);
      var c := Child(v, path[0]).value;
      ChildUnique(v, path[0]);
      GetAfterRemove(c, path[1..]);
      ReplaceChild(v, path[0], Apply(c, path[1..], None).value, path[0]);
      assert path[1..][|path| - 2] == path[|path| - 1];
      if path[|path| - 1].Index? {
        assert Next(path)[1..] == Next(path[1..]) && Next(path)[0] == path[0];
      }
    }
  }

  lemma ChildUnique(v: V, s: Segment)
    requires Unique(v) && Child(v, s).Some?
    ensures Unique(Child(v, s).value)
  {
  }

  // ----- Unique keys survive -----

  lemma ReplaceUnique(v: V, s: Segment, w: V)
    requires Unique(v) && Child(v, s).Some? && Unique(w)
    ensures Unique(Replace(v, s, w))
  {
    match v
    case Obj(ms) =>
      var j := Find(ms, EncodeUtf16(s.k)).value;
      var ns := ms[j := Member(EncodeUtf16(s.k), w)];
      assert forall i :: 0 <= i < |ms| ==> ns[i].key == ms[i].key;
    case Arr(items) =>
  }

  lemma MembersUniqueAfter(ms: seq<Member>, k: Units, put: Option<V>)
    requires Unique(Obj(ms)) && (put.Some? ==> Unique(put.value))
    ensures Unique(Obj(EditMembers(ms, k, put)))
  {
    assert UniqueKeys(EditMembers(ms, k, put));
  }

  lemma ItemsUniqueAfter(items: seq<V>, i: nat, put: Option<V>)
    requires Unique(Arr(items)) && (put.Some? ==> Unique(put.value))
    ensures Unique(Arr(EditItems(items, i, put)))
  {
  }

  lemma ApplyHereUnique(v: V, s: Segment, put: Option<V>)
    requires Unique(v) && (put.Some? ==> Unique(put.value)) && EditLast(v, s, put).Some?
    ensures Unique(EditLast(v, s, put).value)
  {
    match v
    case Obj(ms) => MembersUniqueAfter(ms, EncodeUtf16(s.k), put);
    case Arr(items) => ItemsUniqueAfter(items, s.i, put);
  }

  lemma {:induction false} ApplyUnique(v: V, path: Path, put: Option<V>)
    requires Unique(v) && (put.Some? ==> Unique(put.value)) && Apply(v, path, put).Some?
    ensures Unique(Apply(v, path, put).value)
    decreases path
  {
    if |path| == 1 {
      assert path == [path[0]];
      ApplyHereUnique(v, path[0], put);
    } else if |path| > 1 {
      ApplyDown(v, path, put);
      ChildUnique(v, path[0]);
      ApplyUnique(Child(v, path[0]).value, path[1..], put);
      ReplaceUnique(v, path[0], Apply(Child(v, path[0]).value, path[1..], put).value);
    }
  }

  // ----- Everything else reads the same -----

  /** Neither path is a prefix of the other. */
  predicate Diverge(p: Path, q: Path) {
    p != [] && q != [] && (p[0] != q[0] || Diverge(p[1..], q[1..]))
  }

  /** Where `q` is found once `path` has been edited: elements after a removed one move
      down by one. */
  function Moved(v: V, path: Path, put: Option<V>, q: Path): Path
    requires Diverge(path, q)
  {
    if path[0] == q[0] then
      match Child(v, path[0])
      case Some(c) => [q[0]] + Moved(c, path[1..], put, q[1..])
      case None => q
    else if |path| == 1 && put.None? && v.Arr? && path[0].Index? && q[0].Index? && path[0].i < q[0].i && path[0].i < |v.items|
    then [Index(q[0].i - 1)] + q[1..]
    else q
  }

  lemma EditHere(v: V, s: Segment, put: Option<V>, t: Segment)
    requires Fits(v, [s]) && s != t
    ensures EditLast(v, s, put).Some?
    ensures var t' := if put.None? && s.Index? && t.Index? && s.i < t.i && v.Arr? && s.i < |v.items| then Index(t.i - 1) else t;
      Child(EditLast(v, s, put).value, t') == Child(v, t)
  {
    match v
    case Obj(ms) =>
      if t.Key? {
        if EncodeUtf16(s.k) == EncodeUtf16(t.k) {
          EncodeInjective(s.k, t.k);
        }
        OthersKept(ms, EncodeUtf16(s.k), put, EncodeUtf16(t.k));
      }
    case Arr(items) =>
  }

  lemma OthersKept(ms: seq<Member>, k: Units, put: Option<V>, l: Units)
    requires k != l
    ensures Lookup(EditMembers(ms, k, put), l) == Lookup(ms, l)
  {
    match Find(ms, k)
    case Some(j) =>
      if put.Some? {
        FindStill(ms, j, put.value, l);
      } else {
        FindWithout(ms, j, l);
      }
    case None =>
      if put.Some? {
        FindAppended(ms, Member(k, put.value), l);
      }
  }

  lemma FindWithout(ms: seq<Member>, j: nat, k: Units)
    requires j < |ms| && ms[j].key != k
    ensures Lookup(Without(ms, j), k) == Lookup(ms, k)
  {
    var ns := Without(ms, j);
    var a, b := Find(ms, k), Find(ns, k);
    if a.Some? {
      var i := if a.value < j then a.value else a.value - 1;
      assert ns[i] == ms[a.value];
      assert b.Some? && b.value <= i;
      var i' := if b.value < j then b.value else b.value + 1;
      assert ms[i'] == ns[b.value];
    } else {
      assert forall i :: 0 <= i < |ns| ==> ns[i].key != k;
    }
  }

  /** The frame: an edit at `path` changes no other read, but for the shift of an
      array after a removal. */
  lemma {:induction false} EditFrame(v: V, path: Path, put: Option<V>, q: Path)
    requires Fits(v, path) && Diverge(path, q)
    ensures Apply(v, path, put).Some?
    ensures Get(Apply(v, path, put).value, Moved(v, path, put, q)) == Get(v, q)
    decreases path
  {
    FitsWalks(v, path);
    ApplyDefined(v, path, put);
    var s, t := path[0], q[0];
    if s == t {
      assert |path| > 1;
      ApplyDown(v, path, put);
      var c := Child(v, s).value;
      EditFrame(c, path[1..], put, q[1..]);
      ReplaceChild(v, s, Apply(c, path[1..], put).value, s);
      var m := Moved(c, path[1..], put, q[1..]);
      assert Moved(v, path, put, q)[0] == s && Moved(v, path, put, q)[1..] == m;
    } else if |path| == 1 {
      assert path == [s];
      EditHere(v, s, put, t);
      assert Moved(v, path, put, q)[1..] == q[1..];
    } else {
      ApplyDown(v, path, put);
      ReplaceChild(v, s, Apply(Child(v, s).value, path[1..], put).value, t);
    }
  }

  // ----- pick and apply agree -----

  /** Picking by position and finding by key reach the same member. */
  lemma FindPicked(ms: seq<Member>, j: nat)
    requires UniqueKeys(ms) && j < |ms|
    ensures Find(ms, ms[j].key) == Some(j)
  {
  }

  /** On a value with unique keys every picked path fits, whatever the choices. */
  lemma {:induction false} PickFits(v: V, choices: seq<u8>)
    requires Unique(v)
    ensures Fits(v, Pick(v, choices))
    decreases |choices|
  {
    if choices != [] {
      var c := choices[0];
      if v.Obj? && v.members != [] && c % 4 != 0 {
        var j := c % |v.members|;
        var m := v.members[j];
        if DecodeUtf16(m.key).Some? {
          var k, rest := DecodeUtf16(m.key).value, Pick(m.value, choices[1..]);
          EncodeDecoded(m.key);
          FindPicked(v.members, j);
          PickFits(m.value, choices[1..]);
          assert ([Key(k)] + rest)[1..] == rest;
        }
      } else if v.Arr? {
        var i := c % (|v.items| + 1);
        if i < |v.items| {
          var rest := Pick(v.items[i], choices[1..]);
          PickFits(v.items[i], choices[1..]);
          assert ([Index(i)] + rest)[1..] == rest;
        }
      }
    }
  }

  /** Without unique keys they disagree: the second "a" is picked, the first is found. */
  lemma PickNeedsUnique()
    ensures var v := Obj([Member(EncodeUtf16("a"), Null), Member(EncodeUtf16("a"), Arr([]))]);
      Apply(v, Pick(v, [1, 0]), Some(Null)) == None
  {
    var a := EncodeUtf16("a");
    var v := Obj([Member(a, Null), Member(a, Arr([]))]);
    DecodeEncoded("a");
    assert Pick(Arr([]), [0]) == [Index(0)] + [];
    assert [1, 0][1..] == [0];
    var path := Pick(v, [1, 0]);
    assert path == [Key("a")] + ([Index(0)] + []);
    assert path[0] == Key("a") && path[1..] == [Index(0)];
    assert Find(v.members, a) == Some(0);
    assert Apply(Null, [Index(0)], Some(Null)) == None;
  }

  // ----- The fuzz target -----

  /** The compact texts the fuzzer sets, with the value each means. */
  function Values(): seq<(string, V)> {
    var one, two := 0x3ff0_0000_0000_0000, 0x4000_0000_0000_0000;
    [ ("1", Num(one)),
      ("\"x\"", Str(EncodeUtf16("x"))),
      ("[1,2]", Arr([Num(one), Num(two)])),
      ("{\"k\":null}", Obj([Member(EncodeUtf16("k"), Null)])),
      ("{}", Obj([])) ]
  }

  datatype Plan = Plan(path: Path, put: Option<V>)

  /** The edit that the operation byte and the choices select. `op >> 4` choices are
      taken, as far as the input reaches; bit 1 asks for a removal. */
  function Edit(op: u8, rest: seq<u8>, before: V): Plan {
    var n := if op / 16 < |rest| then op / 16 else |rest|;
    var path := Pick(before, rest[..n]);
    var remove := op / 2 % 2 != 0 && path != [];
    Plan(path, if remove then None else Some(Values()[op / 4 % |Values()|].1))
  }

  lemma ValuesUnique(i: nat)
    requires i < |Values()|
    ensures Unique(Values()[i].1)
  {
  }

  /** The oracle is total: for every document and every input byte string the wanted
      value is computed without a panic, is the root itself or fits where it was put,
      and has unique keys, so it can equal what the parser builds. */
  lemma OracleTotal(es: seq<Event>, before: V, op: u8, rest: seq<u8>)
    requires ReadAll(es).Some? && Run(es).Some? && Run(es).value.root == Some(before)
    ensures var e := Edit(op, rest, before);
      && Fits(before, e.path)
      && Apply(before, e.path, e.put).Some?
      && Unique(Apply(before, e.path, e.put).value)
      && (e.put.Some? ==> Get(Apply(before, e.path, e.put).value, e.path) == e.put)
  {
    RunUnique(es);
    var e := Edit(op, rest, before);
    var n := if op / 16 < |rest| then op / 16 else |rest|;
    PickFits(before, rest[..n]);
    FitsWalks(before, e.path);
    ApplyDefined(before, e.path, e.put);
    if e.put.Some? {
      ValuesUnique(op / 4 % |Values()|);
      GetAfterSet(before, e.path, e.put.value);
    }
    ApplyUnique(before, e.path, e.put);
  }
}
