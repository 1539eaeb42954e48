/** Values and UTF-16 for the edit oracle (fuzz/fuzz_targets/json_edit.rs:13-37). */
module JsonValue {
  import opened Common

  type u16 = n: int | 0 <= n < 0x1_0000
  type u64 = n: int | 0 <= n < 0x1_0000_0000_0000_0000
  type Units = seq<u16>

  datatype V =
    | Null
    | Bool(b: bool)
    | Num(bits: u64)
    | Str(units: Units)
    | Arr(items: seq<V>)
    | Obj(members: seq<Member>)

  datatype Member = Member(key: Units, value: V)

  // ----- UTF-16 -----

  function EncodeChar(c: char): Units {
    var n := c as int;
    if n < 0x1_0000 then [n]
    else [0xD800 + (n - 0x1_0000) / 0x400, 0xDC00 + (n - 0x1_0000) % 0x400]
  }

  /** `str::encode_utf16`: a Rust string holds no surrogates, and neither does this. */
  function EncodeUtf16(s: string): Units {
    if s == [] then [] else EncodeChar(s[0]) + EncodeUtf16(s[1..])
  }

  /** `String::from_utf16`: fails on a surrogate without its partner. */
  function DecodeUtf16(u: Units): Option<string> {
    if u == [] then Some("")
    else if u[0] < 0xD800 || u[0] >= 0xE000 then
      var rest :- DecodeUtf16(u[1..]);
      Some([u[0] as char] + rest)
    else if u[0] < 0xDC00 && |u| > 1 && 0xDC00 <= u[1] < 0xE000 then
      var rest :- DecodeUtf16(u[2..]);
      Some([PairChar(u[0], u[1])] + rest)
    else None
  }

  /** The character of a surrogate pair. */
  function PairChar(hi: u16, lo: u16): (c: char)
    requires 0xD800 <= hi < 0xDC00 && 0xDC00 <= lo < 0xE000
    ensures EncodeChar(c) == [hi, lo]
  {
    var n: int := 0x1_0000 + (hi - 0xD800) * 0x400 + (lo - 0xDC00);
    n as char
  }

  /** A key that decodes at all is spelled the same when encoded again. */
  lemma {:induction false} EncodeDecoded(u: Units)
    requires DecodeUtf16(u).Some?
    ensures EncodeUtf16(DecodeUtf16(u).value) == u
  {
    if u != [] {
      var s := DecodeUtf16(u).value;
      var k := if u[0] < 0xD800 || u[0] >= 0xE000 then 1 else 2;
      EncodeDecoded(u[k..]);
      assert s[1..] == DecodeUtf16(u[k..]).value;
      assert EncodeChar(s[0]) == u[..k];
    }
  }

  lemma {:induction false} DecodeEncoded(s: string)
    ensures DecodeUtf16(EncodeUtf16(s)) == Some(s)
  {
    if s != [] {
      DecodeEncoded(s[1..]);
      var u := EncodeUtf16(s);
      var k := |EncodeChar(s[0])|;
      assert u[k..] == EncodeUtf16(s[1..]);
      assert s == [s[0]] + s[1..];
    }
  }

  /** A character past the first plane is two surrogates, ten bits in each. */
  lemma SurrogatePair(c: char)
    ensures var n, u := c as int, EncodeChar(c);
      if n < 0x1_0000 then u == [n]
      else |u| == 2 && 0xD800 <= u[0] < 0xDC00 && 0xDC00 <= u[1] < 0xE000
           && n == 0x1_0000 + (u[0] as int - 0xD800) * 0x400 + (u[1] as int - 0xDC00)
  {
  }

  lemma EncodeInjective(s: string, t: string)
    requires EncodeUtf16(s) == EncodeUtf16(t)
    ensures s == t
  {
    DecodeEncoded(s);
    DecodeEncoded(t);
  }

  // ----- Objects -----

  predicate UniqueKeys(ms: seq<Member>) {
    forall i, j :: 0 <= i < j < |ms| ==> ms[i].key != ms[j].key
  }

  /** Every object inside `v` has each key once. */
  predicate Unique(v: V) {
    match v
    case Arr(items) => forall i :: 0 <= i < |items| ==> Unique(items[i])
    case Obj(ms) => UniqueKeys(ms) && forall i :: 0 <= i < |ms| ==> Unique(ms[i].value)
    case _ => true
  }

  /** The position of the first member with key `k`. */
  function Find(ms: seq<Member>, k: Units): (r: Option<nat>)
    ensures r.Some? ==> r.value < |ms| && ms[r.value].key == k
    ensures r.Some? ==> forall j :: 0 <= j < r.value ==> ms[j].key != k
    ensures r.None? ==> forall j :: 0 <= j < |ms| ==> ms[j].key != k
  {
    if ms == [] then None
    else if ms[0].key == k then Some(0)
    else
      match Find(ms[1..], k)
      case None => None
      case Some(j) => Some(j + 1)
  }
}
