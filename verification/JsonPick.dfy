/** Which edits the fuzz target can choose (fuzz/fuzz_targets/json_edit.rs:124-156 and
    198-225): `pick` reaches exactly the paths whose steps a byte can draw, and the
    operation byte selects between them, the values and a removal. */
module JsonPick {
  import opened Common
  import opened Decimal
  import opened JsonValue
  import opened JsonBuild
  import opened JsonPath

  // ----- One step -----

  /** A byte that draws member `j` of `n` exists: a byte that is a multiple of four draws a
      new key instead. */
  predicate Drawn(j: nat, n: nat) { (j < 256 && j % 4 != 0) || (n % 4 != 0 && j + n < 256) }

  lemma OneMoreTime(n: nat, t: nat)
    ensures n * (t + 1) == n * t + n
  {
  }

  lemma {:induction false} Multiples(n: nat, t: nat)
    ensures t >= 1 ==> n * t >= n
    ensures t >= 2 ==> n * t >= n + n
  {
    if t > 0 {
      Multiples(n, t - 1);
      OneMoreTime(n, t - 1);
    }
  }

  lemma FourDivides(n: nat, t: nat)
    requires n % 4 == 0
    ensures n * t % 4 == 0
  {
    var q := n / 4;
    assert n == 4 * q;
    FourTimes(q, t);
  }

  lemma FourTimes(q: nat, t: nat)
    ensures 4 * q * t % 4 == 0
  {
    assert 4 * q * t == 4 * (q * t);
  }

  lemma Divided(c: nat, n: nat)
    requires n > 0
    ensures c == n * (c / n) + c % n && c % n < n
    ensures c < n ==> c % n == c
  {
  }

  lemma SecondLap(j: nat, n: nat)
    requires j < n
    ensures (j + n) % n == j
  {
    Divided(j + n, n);
    var t := (j + n) / n;
    Multiples(n, t);
    OneMoreTime(n, 0);
    assert t < 2;
    assert t == 1;
  }

  lemma DrawnFrom(c: nat, n: nat, laps: nat, j: nat)
    requires c == laps + j && j < n && (laps == 0 || laps >= n) && (n % 4 == 0 ==> laps % 4 == 0)
    requires c < 256 && c % 4 != 0
    ensures Drawn(j, n)
  {
  }

  lemma DrawsOnly(c: nat, n: nat)
    requires n > 0 && c < 256 && c % 4 != 0
    ensures Drawn(c % n, n)
  {
    Divided(c, n);
    var t := c / n;
    Multiples(n, t);
    if n % 4 == 0 {
      FourDivides(n, t);
    }
    if t == 0 {
      assert n * t == 0;
    }
    DrawnFrom(c, n, n * t, c % n);
  }

  lemma Remainder(c: nat, n: nat)
    requires n > 0
    ensures c % n <= c
  {
    if c < n {
      Divided(c, n);
    }
  }

  /** The byte that draws member `j`. */
  function Byte(j: nat, n: nat): u8
    requires Drawn(j, n)
  {
    if j < 256 && j % 4 != 0 then j else j + n
  }

  lemma ByteDraws(j: nat, n: nat)
    requires j < n && Drawn(j, n)
    ensures Byte(j, n) % 4 != 0 && Byte(j, n) % n == j
  {
    Divided(j, n);
    SecondLap(j, n);
  }

  lemma DrawnIff(j: nat, n: nat)
    requires j < n
    ensures (exists c: u8 :: c % 4 != 0 && c % n == j) <==> Drawn(j, n)
  {
    if Drawn(j, n) {
      ByteDraws(j, n);
    }
    if c: u8 :| c % 4 != 0 && c % n == j {
      DrawsOnly(c, n);
    }
  }

  /** For objects of up to 128 members only a multiple of four in an object whose size is
      one, too, cannot be drawn. */
  lemma DrawnSmall(j: nat, n: nat)
    requires j < n <= 128
    ensures Drawn(j, n) <==> n % 4 != 0 || j % 4 != 0
  {
  }

  /** A new key is spelled with the byte that chose it, so no two bytes share one. */
  lemma NewKeyTells(c: u8, d: u8)
    ensures var k := NewKey(c).k;
      |k| > 3 && k[..3] == "new" && AllDigits(k[3..]) && Value(k[3..]) == c
    ensures NewKey(c) == NewKey(d) <==> c == d
  {
    DecDigits(c);
    DecDigits(d);
    assert NewKey(c).k[3..] == Dec(c) && NewKey(d).k[3..] == Dec(d);
  }

  // ----- Whole paths -----

  /** Each step enters a member or element that a byte draws; the last may also be a new
      key or the index past the end. */
  predicate Choosable(v: V, path: Path)
    decreases |path|
  {
    path == [] || match (v, path[0])
      case (Obj(ms), Key(k)) => ChoosesNew(ms, path) || exists j :: 0 <= j < |ms| && ChoosesMember(ms, j, path)
      case (Arr(items), Index(i)) =>
        i < 256 && if i < |items| then Choosable(items[i], path[1..]) else i == |items| && |path| == 1
      case _ => false
  }

  predicate ChoosesNew(ms: seq<Member>, path: Path) {
    |path| == 1 && exists c: u8 :: path[0] == NewKey(c) && (ms == [] || c % 4 == 0)
  }

  predicate ChoosesMember(ms: seq<Member>, j: nat, path: Path)
    requires j < |ms| && path != []
    decreases |path|, 0
  {
    && path[0].Key? && DecodeUtf16(ms[j].key) == Some(path[0].k)
    && Drawn(j, |ms|) && Choosable(ms[j].value, path[1..])
  }

  lemma MemberChoosable(ms: seq<Member>, c: u8, rest: Path)
    requires ms != [] && c % 4 != 0 && DecodeUtf16(ms[c % |ms|].key).Some?
    requires Choosable(ms[c % |ms|].value, rest)
    ensures Choosable(Obj(ms), [Key(DecodeUtf16(ms[c % |ms|].key).value)] + rest)
  {
    var path := [Key(DecodeUtf16(ms[c % |ms|].key).value)] + rest;
    DrawsOnly(c, |ms|);
    assert path[1..] == rest;
    assert ChoosesMember(ms, c % |ms|, path);
  }

  lemma NewChoosable(ms: seq<Member>, c: u8)
    requires ms == [] || c % 4 == 0
    ensures Choosable(Obj(ms), [NewKey(c)])
  {
    assert ChoosesNew(ms, [NewKey(c)]);
  }

  lemma ItemChoosable(items: seq<V>, c: u8, rest: Path)
    requires var i := c % (|items| + 1); if i < |items| then Choosable(items[i], rest) else rest == []
    ensures Choosable(Arr(items), [Index(c % (|items| + 1))] + rest)
  {
    Remainder(c, |items| + 1);
    Divided(c, |items| + 1);
    assert ([Index(c % (|items| + 1))] + rest)[1..] == rest;
  }

  lemma {:induction false} PickChoosable(v: V, choices: seq<u8>)
    ensures Choosable(v, Pick(v, choices))
    decreases |choices|
  {
    if choices != [] {
      var c := choices[0];
      match v
      case Obj(ms) =>
        if ms == [] || c % 4 == 0 {
          NewChoosable(ms, c);
        } else if DecodeUtf16(ms[c % |ms|].key).Some? {
          PickChoosable(ms[c % |ms|].value, choices[1..]);
          MemberChoosable(ms, c, Pick(ms[c % |ms|].value, choices[1..]));
        }
      case Arr(items) =>
        var i := c % (|items| + 1);
        if i < |items| {
          PickChoosable(items[i], choices[1..]);
        }
        ItemChoosable(items, c, if i < |items| then Pick(items[i], choices[1..]) else []);
      case _ =>
    }
  }

  lemma PickInto(v: V, c: u8, more: seq<u8>, s: Segment, rest: Path)
    requires match v
      case Obj(ms) => ms != [] && c % 4 != 0 && s.Key? && DecodeUtf16(ms[c % |ms|].key) == Some(s.k) && Pick(ms[c % |ms|].value, more) == rest
      case Arr(items) => c < |items| && s == Index(c) && Pick(items[c], more) == rest
      case _ => false
    ensures Pick(v, [c] + more) == [s] + rest
  {
    assert ([c] + more)[1..] == more;
    if v.Arr? {
      Divided(c, |v.items| + 1);
    }
  }

  lemma PickEnd(v: V, c: u8, s: Segment)
    requires match v
      case Obj(ms) => s == NewKey(c) && (ms == [] || c % 4 == 0)
      case Arr(items) => c == |items| && s == Index(c)
      case _ => false
    ensures Pick(v, [c]) == [s]
  {
    if v.Arr? {
      Divided(c, |v.items| + 1);
    }
  }

  /** The choices for a path, one byte a step. */
  lemma {:induction false} ChoosablePicked(v: V, path: Path) returns (choices: seq<u8>)
    requires Choosable(v, path)
    ensures Pick(v, choices) == path && |choices| == |path|
    decreases |path|
  {
    choices := [];
    if path != [] {
      var s, rest := path[0], path[1..];
      assert path == [s] + rest;
      match v
      case Obj(ms) =>
        if ChoosesNew(ms, path) {
          var c: u8 :| s == NewKey(c) && (ms == [] || c % 4 == 0);
          choices := [c];
          PickEnd(v, c, s);
        } else {
          var j :| 0 <= j < |ms| && ChoosesMember(ms, j, path);
          var more := ChoosablePicked(ms[j].value, rest);
          ByteDraws(j, |ms|);
          PickInto(v, Byte(j, |ms|), more, s, rest);
          choices := [Byte(j, |ms|)] + more;
        }
      case Arr(items) =>
        if s.i < |items| {
          var more := ChoosablePicked(items[s.i], rest);
          PickInto(v, s.i, more, s, rest);
          choices := [s.i] + more;
        } else {
          choices := [s.i];
          PickEnd(v, s.i, s);
        }
      case _ =>
    }
  }

  /** `pick` can return a path exactly when each of its steps can be drawn. */
  lemma PickReaches(v: V, path: Path)
    ensures (exists choices: seq<u8> :: Pick(v, choices) == path) <==> Choosable(v, path)
  {
    if Choosable(v, path) {
      var choices := ChoosablePicked(v, path);
    }
    if choices: seq<u8> :| Pick(v, choices) == path {
      PickChoosable(v, choices);
    }
  }

  // ----- The operation byte -----

  /** From the top: four bits count the choices, two more take part in choosing the value,
      one asks for a removal, and the last is the dialect's. */
  lemma EditBits(n: nat, a: nat, r: nat, d: nat, rest: seq<u8>, before: V)
    requires n < 16 && a < 4 && r < 2 && d < 2
    ensures var e := Edit(16 * n + 4 * a + 2 * r + d, rest, before);
      && (forall taken: nat :: taken <= |rest| && (taken == n || (taken == |rest| && taken < n)) ==> e.path == Pick(before, rest[..taken]))
      && (e.put.None? <==> r == 1 && e.path != [])
      && (e.put.Some? ==> e.put.value == Values()[(4 * n + a) % 5].1)
  {
    var op: u8 := 16 * n + 4 * a + 2 * r + d;
    assert op / 16 == n && op / 4 == 4 * n + a && op / 2 % 2 == r;
  }

  lemma Taken(choices: seq<u8>, text: seq<u8>, before: V, n: nat, a: nat, r: nat)
    requires n == |choices| < 16 && a < 4 && r < 2
    ensures var e := Edit(16 * n + 4 * a + 2 * r, choices + text, before);
      && e.path == Pick(before, choices)
      && (e.put.None? <==> r == 1 && e.path != [])
      && (e.put.Some? ==> e.put.value == Values()[(4 * n + a) % 5].1)
  {
    EditBits(n, a, r, 0, choices + text, before);
    assert (choices + text)[..n] == choices;
  }

  lemma Fifths(n: nat, i: nat)
    requires i < 5
    ensures (4 * n + (i + n) % 5) % 5 == i
  {
    var q := (i + n) / 5;
    assert 4 * n + (i + n) % 5 == i + 5 * (n - q);
  }

  /** Every path that can be picked in up to fifteen choices can be removed, and can be set
      to any of the values but one. */
  lemma EveryEdit(before: V, path: Path, text: seq<u8>, i: nat) returns (op: u8, removal: u8, choices: seq<u8>)
    requires Choosable(before, path) && |path| < 16 && i < 5
    ensures path != [] ==> Edit(removal, choices + text, before) == Plan(path, None)
    ensures i != (4 * |path| + 4) % 5 ==> Edit(op, choices + text, before) == Plan(path, Some(Values()[i].1))
  {
    choices := ChoosablePicked(before, path);
    var n := |path|;
    removal := 16 * n + 2;
    Taken(choices, text, before, n, 0, 1);
    op := Selector(choices, text, before, i);
  }

  lemma Selector(choices: seq<u8>, text: seq<u8>, before: V, i: nat) returns (op: u8)
    requires |choices| < 16 && i < 5
    ensures i != (4 * |choices| + 4) % 5 ==>
      Edit(op, choices + text, before) == Plan(Pick(before, choices), Some(Values()[i].1))
  {
    var n := |choices|;
    var a := (i + n) % 5;
    Fifths(n, i);
    op := if a < 4 then 16 * n + 4 * a else 0;
    if a < 4 {
      Taken(choices, text, before, n, a, 0);
    }
  }

  // ----- The values -----

  /** The compact text of a value, of the kinds the fuzzer sets. */
  function Show(v: V): Option<string>
    decreases v, 0
  {
    match v
    case Null => Some("null")
    case Num(bits) => if bits == 0x3ff0_0000_0000_0000 then Some("1") else if bits == 0x4000_0000_0000_0000 then Some("2") else None
    case Str(u) => ShowText(u)
    case Arr(items) =>
      var s :- ShowAll(items);
      Some("[" + s + "]")
    case Obj(ms) =>
      var s :- ShowMembers(ms);
      Some("{" + s + "}")
    case Bool(b) => Some(if b then "true" else "false")
  }

  function ShowText(u: Units): Option<string> {
    var s :- DecodeUtf16(u);
    if forall i :: 0 <= i < |s| ==> 'a' <= s[i] <= 'z' then Some("\"" + s + "\"") else None
  }

  function ShowAll(items: seq<V>): Option<string>
    decreases items, 1
  {
    if items == [] then Some("")
    else
      var s :- Show(items[0]);
      var rest :- ShowAll(items[1..]);
      Some(s + (if |items| > 1 then "," else "") + rest)
  }

  function ShowMembers(ms: seq<Member>): Option<string>
    decreases ms, 1
  {
    if ms == [] then Some("")
    else
      var s :- ShowMember(ms[0]);
      var rest :- ShowMembers(ms[1..]);
      Some(s + (if |ms| > 1 then "," else "") + rest)
  }

  function ShowMember(m: Member): Option<string>
    decreases m, 2
  {
    match m case Member(k, v) =>
      var key :- ShowText(k);
      var value :- Show(v);
      Some(key + ":" + value)
  }

  lemma OneShown(v: V, s: string)
    requires Show(v) == Some(s)
    ensures ShowAll([v]) == Some(s)
  {
    assert [v][1..] == [] && s + "" + "" == s;
  }

  lemma TwoShown(v: V, w: V, s: string, t: string)
    requires Show(v) == Some(s) && Show(w) == Some(t)
    ensures ShowAll([v, w]) == Some(s + "," + t)
  {
    OneShown(w, t);
    assert [v, w][1..] == [w];
  }

  lemma TextShown(text: string)
    requires forall i :: 0 <= i < |text| ==> 'a' <= text[i] <= 'z'
    ensures ShowText(EncodeUtf16(text)) == Some("\"" + text + "\"")
  {
    DecodeEncoded(text);
  }

  lemma MemberShown(key: string, v: V, s: string)
    requires Show(v) == Some(s) && forall i :: 0 <= i < |key| ==> 'a' <= key[i] <= 'z'
    ensures ShowMembers([Member(EncodeUtf16(key), v)]) == Some("\"" + key + "\"" + ":" + s)
  {
    DecodeEncoded(key);
    var m := Member(EncodeUtf16(key), v);
    assert [m][1..] == [];
    assert ShowMember(m) == Some("\"" + key + "\"" + ":" + s);
    assert "\"" + key + "\"" + ":" + s + "" + "" == "\"" + key + "\"" + ":" + s;
  }

  /** Each text the fuzzer sets is the compact text of the value beside it. */
  lemma ValuesShown(i: nat)
    requires i < |Values()|
    ensures Show(Values()[i].1) == Some(Values()[i].0)
  {
    var one, two := Num(0x3ff0_0000_0000_0000), Num(0x4000_0000_0000_0000);
    match i
    case 0 =>
    case 1 =>
      TextShown("x");
      assert "\"" + "x" + "\"" == "\"x\"";
      assert Show(Str(EncodeUtf16("x"))) == Some("\"" + "x" + "\"");
    case 2 =>
      TwoShown(one, two, "1", "2");
      assert "[" + ("1" + "," + "2") + "]" == "[1,2]";
    case 3 =>
      MemberShown("k", Null, "null");
      assert "{" + ("\"" + "k" + "\"" + ":" + "null") + "}" == "{\"k\":null}";
    case 4 =>
      assert Show(Obj([])) == Some("{" + "" + "}");
      assert "{" + "" + "}" == "{}";
  }
}
