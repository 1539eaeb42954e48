/** The event-to-tree builder of the edit oracle (fuzz/fuzz_targets/json_edit.rs:25-90):
    it means the same as parsing the events into a tree first. */
module JsonBuild {
  import opened Common
  import opened JsonValue

  datatype Text = TextStr(s: string) | TextUtf16(u: Units)

  datatype Event =
    | ENull
    | EBool(b: bool)
    | ENum(bits: u64)
    | EStr(t: Text)
    | EBeginArr
    | EEndArr
    | EBeginObj
    | EKey(k: Text)
    | EEndObj

  function UnitsOf(t: Text): Units {
    match t
    case TextStr(s) => EncodeUtf16(s)
    case TextUtf16(u) => u
  }

  const NAN_BITS: u64 := 0x7ff8_0000_0000_0000

  predicate IsNan(bits: u64) {
    bits / 0x10_0000_0000_0000 % 0x800 == 0x7ff && bits % 0x10_0000_0000_0000 != 0
  }

  function Canonical(bits: u64): u64 { if IsNan(bits) then NAN_BITS else bits }

  type ScalarEvent = e: Event | e.ENull? || e.EBool? || e.ENum? || e.EStr? witness ENull

  /** The value a scalar event stands for. */
  function Scalar(e: ScalarEvent): V {
    match e
    case ENull => Null
    case EBool(b) => Bool(b)
    case ENum(bits) => Num(Canonical(bits))
    case EStr(t) => Str(UnitsOf(t))
  }

  // ----- The builder; None where the Rust code panics -----

  datatype BuildState = BuildState(stack: seq<V>, keys: seq<Units>, root: Option<V>)

  const START := BuildState([], [], None)

  function PutMember(ms: seq<Member>, k: Units, v: V): seq<Member> {
    match Find(ms, k)
    case Some(i) => ms[i := ms[i].(value := v)]
    case None => ms + [Member(k, v)]
  }

  function Put(b: BuildState, v: V): Option<BuildState> {
    var n, m := |b.stack|, |b.keys|;
    if n > 0 && b.stack[n - 1].Arr? then
      Some(b.(stack := b.stack[n - 1 := Arr(b.stack[n - 1].items + [v])]))
    else if n > 0 && b.stack[n - 1].Obj? then
      if m == 0 then None
      else Some(b.(
        stack := b.stack[n - 1 := Obj(PutMember(b.stack[n - 1].members, b.keys[m - 1], v))],
        keys := b.keys[..m - 1]))
    else Some(b.(root := Some(v)))
  }

  function Step(b: BuildState, e: Event): Option<BuildState> {
    match e
    case EBeginArr => Some(b.(stack := b.stack + [Arr([])]))
    case EBeginObj => Some(b.(stack := b.stack + [Obj([])]))
    case EKey(k) => Some(b.(keys := b.keys + [UnitsOf(k)]))
    case EEndArr | EEndObj =>
      var n := |b.stack|;
      if n == 0 then None else Put(b.(stack := b.stack[..n - 1]), b.stack[n - 1])
    case ENull | EBool(_) | ENum(_) | EStr(_) => Put(b, Scalar(e))
  }

  function Run(es: seq<Event>): Option<BuildState> {
    if es == [] then Some(START)
    else
      var b :- Run(es[..|es| - 1]);
      Step(b, es[|es| - 1])
  }

  /** The sink itself. `ok` is false exactly where the source would panic. */
  class Build {
    var stack: seq<V>
    var keys: seq<Units>
    var root: Option<V>

    function State(): BuildState
      reads this
    {
      BuildState(stack, keys, root)
    }

    constructor ()
      ensures State() == START
    {
      stack, keys, root := [], [], None;
    }

    method PutValue(v: V) returns (ok: bool)
      modifies this
      ensures ok == Put(old(State()), v).Some?
      ensures ok ==> State() == Put(old(State()), v).value
    {
      var n := |stack|;
      if n > 0 && stack[n - 1].Arr? {
        stack := stack[n - 1 := Arr(stack[n - 1].items + [v])];
      } else if n > 0 && stack[n - 1].Obj? {
        if keys == [] {
          return false;
        }
        var key := keys[|keys| - 1];
        keys := keys[..|keys| - 1];
        var members := stack[n - 1].members;
        var i := FindSlot(members, key);
        if i < |members| {
          members := members[i := members[i].(value := v)];
        } else {
          members := members + [Member(key, v)];
        }
        stack := stack[n - 1 := Obj(members)];
      } else {
        root := Some(v);
      }
      ok := true;
    }

    /** `iter_mut().find(...)`: the first match, or the length. */
    static method FindSlot(members: seq<Member>, key: Units) returns (i: nat)
      ensures i <= |members|
      ensures Find(members, key) == if i < |members| then Some(i) else None
    {
      i := 0;
      while i < |members| && members[i].key != key
        invariant i <= |members|
        invariant forall j :: 0 <= j < i ==> members[j].key != key
      {
        i := i + 1;
      }
    }

    method Accept(e: Event) returns (ok: bool)
      modifies this
      ensures ok == Step(old(State()), e).Some?
      ensures ok ==> State() == Step(old(State()), e).value
    {
      match e {
        case EBeginArr => stack := stack + [Arr([])]; ok := true;
        case EBeginObj => stack := stack + [Obj([])]; ok := true;
        case EKey(k) => keys := keys + [UnitsOf(k)]; ok := true;
        case EEndArr | EEndObj =>
          if stack == [] {
            return false;
          }
          var v := stack[|stack| - 1];
          stack := stack[..|stack| - 1];
          ok := PutValue(v);
        case ENull | EBool(_) | ENum(_) | EStr(_) =>
          ok := PutValue(Scalar(e));
      }
    }
  }

  // ----- The grammar: a document as the parser reports it -----

  /** A document before repeated keys are resolved. */
  datatype Src = SScalar(e: ScalarEvent) | SArr(items: seq<Src>) | SObj(fields: seq<Field>)
  datatype Field = Field(key: Text, value: Src)

  /** The containers open at some point of a document, outermost first. */
  datatype Frame = FArr(items: seq<Src>) | FObj(fields: seq<Field>, pending: Option<Text>)
  datatype Config = Config(frames: seq<Frame>, done: Option<Src>)

  const BLANK := Config([], None)

  function Top(c: Config): Frame
    requires c.frames != []
  {
    c.frames[|c.frames| - 1]
  }

  predicate WantsValue(c: Config) {
    if c.frames == [] then c.done.None? else Top(c).FArr? || Top(c).pending.Some?
  }

  function Place(c: Config, s: Src): Config
    requires WantsValue(c)
  {
    var n := |c.frames|;
    if n == 0 then c.(done := Some(s))
    else
      c.(frames := c.frames[n - 1 :=
        match Top(c)
        case FArr(items) => FArr(items + [s])
        case FObj(fields, pending) => FObj(fields + [Field(pending.value, s)], None)])
  }

  function Close(c: Config, s: Src): Option<Config>
    requires c.frames != []
  {
    var outer := c.(frames := c.frames[..|c.frames| - 1]);
    if WantsValue(outer) then Some(Place(outer, s)) else None
  }

  /** One event of the grammar; None when the event cannot come next. */
  function Read(c: Config, e: Event): Option<Config> {
    var open := c.frames != [];
    match e
    case EBeginArr => if WantsValue(c) then Some(c.(frames := c.frames + [FArr([])])) else None
    case EBeginObj => if WantsValue(c) then Some(c.(frames := c.frames + [FObj([], None)])) else None
    case EKey(k) =>
      if open && Top(c).FObj? && Top(c).pending.None?
      then Some(c.(frames := c.frames[|c.frames| - 1 := Top(c).(pending := Some(k))]))
      else None
    case EEndArr => if open && Top(c).FArr? then Close(c, SArr(Top(c).items)) else None
    case EEndObj => if open && Top(c).FObj? && Top(c).pending.None? then Close(c, SObj(Top(c).fields)) else None
    case ENull | EBool(_) | ENum(_) | EStr(_) => if WantsValue(c) then Some(Place(c, SScalar(e))) else None
  }

  function ReadAll(es: seq<Event>): Option<Config> {
    if es == [] then Some(BLANK)
    else
      var c :- ReadAll(es[..|es| - 1]);
      Read(c, es[|es| - 1])
  }

  // ----- What a document means -----

  function Meaning(s: Src): V {
    match s
    case SScalar(e) => Scalar(e)
    case SArr(items) => Arr(MeaningAll(items))
    case SObj(fields) => Obj(Members(fields))
  }

  function MeaningAll(items: seq<Src>): seq<V> {
    if items == [] then [] else MeaningAll(items[..|items| - 1]) + [Meaning(items[|items| - 1])]
  }

  /** A repeated key keeps its first place and takes its last value. */
  function Members(fields: seq<Field>): seq<Member> {
    if fields == [] then []
    else
      var m := MeaningOf(fields[|fields| - 1]);
      PutMember(Members(fields[..|fields| - 1]), m.key, m.value)
  }

  function MeaningOf(f: Field): Member {
    match f case Field(k, v) => Member(UnitsOf(k), Meaning(v))
  }

  // ----- The builder simulates the grammar -----

  function Image(f: Frame): V {
    match f
    case FArr(items) => Arr(MeaningAll(items))
    case FObj(fields, _) => Obj(Members(fields))
  }

  function Pending(fs: seq<Frame>): seq<Units> {
    if fs == [] then []
    else
      var f := fs[|fs| - 1];
      Pending(fs[..|fs| - 1]) + if f.FObj? && f.pending.Some? then [UnitsOf(f.pending.value)] else []
  }

  /** The state the builder must be in: one value per open container, one key per
      member still waiting for its value. */
  function Abs(c: Config): BuildState {
    BuildState(Map(Image, c.frames), Pending(c.frames), if c.done.Some? then Some(Meaning(c.done.value)) else None)
  }

  /** The image of the frames below the top, and of the top. */
  lemma Outer(fs: seq<Frame>)
    requires fs != []
    ensures Map(Image, fs) == Map(Image, fs[..|fs| - 1]) + [Image(fs[|fs| - 1])]
  {
  }

  lemma Grow(f: Frame, s: Src)
    requires f.FArr? || f.pending.Some?
    ensures f.FArr? ==> Image(FArr(f.items + [s])) == Arr(Image(f).items + [Meaning(s)])
    ensures f.FObj? ==>
      var g := FObj(f.fields + [Field(f.pending.value, s)], None);
      Image(g) == Obj(PutMember(Image(f).members, UnitsOf(f.pending.value), Meaning(s)))
  {
    match f
    case FArr(items) => assert (items + [s])[..|items|] == items;
    case FObj(fields, pending) =>
      assert (fields + [Field(pending.value, s)])[..|fields|] == fields;
      assert MeaningOf(Field(pending.value, s)) == Member(UnitsOf(pending.value), Meaning(s));
  }

  function Open(c: Config, f: Frame): Config { c.(frames := c.frames + [f]) }

  lemma PlaceOpen(c: Config, f: Frame, s: Src)
    requires f.FArr? || f.pending.Some?
    ensures Place(Open(c, f), s) == Open(c, match f
      case FArr(items) => FArr(items + [s])
      case FObj(fields, p) => FObj(fields + [Field(p.value, s)], None))
  {
    var n := |c.frames|;
    var g := Top(Place(Open(c, f), s));
    assert (c.frames + [f])[n := g] == c.frames + [g];
  }

  lemma Reopen(c: Config)
    requires c.frames != []
    ensures c == Open(c.(frames := c.frames[..|c.frames| - 1]), Top(c))
  {
  }

  function PendingIn(f: Frame): seq<Units> {
    if f.FObj? && f.pending.Some? then [UnitsOf(f.pending.value)] else []
  }

  lemma AbsOpen(c: Config, f: Frame)
    ensures Abs(Open(c, f)).stack == Abs(c).stack + [Image(f)]
    ensures Abs(Open(c, f)).keys == Abs(c).keys + PendingIn(f)
    ensures Abs(Open(c, f)).root == Abs(c).root
  {
    assert (c.frames + [f])[..|c.frames|] == c.frames;
  }

  lemma PutSimulates(c: Config, s: Src)
    requires WantsValue(c)
    ensures Put(Abs(c), Meaning(s)) == Some(Abs(Place(c, s)))
  {
    if c.frames != [] {
      var outer, f := c.(frames := c.frames[..|c.frames| - 1]), Top(c);
      Reopen(c);
      PlaceOpen(outer, f, s);
      Grow(f, s);
      var g := match f
        case FArr(items) => FArr(items + [s])
        case FObj(fields, p) => FObj(fields + [Field(p.value, s)], None);
      AbsOpen(outer, f);
      AbsOpen(outer, g);
      PutOpen(Abs(outer), Image(f), PendingIn(f), Meaning(s), Image(g));
      assert Abs(outer).keys + [] == Abs(outer).keys;
    }
  }

  /** `Put` with an open container `v` on top, made into `w`. */
  lemma PutOpen(b: BuildState, v: V, ks: seq<Units>, x: V, w: V)
    requires (v.Arr? && ks == [] && w == Arr(v.items + [x]))
          || (v.Obj? && |ks| == 1 && w == Obj(PutMember(v.members, ks[0], x)))
    ensures Put(BuildState(b.stack + [v], b.keys + ks, b.root), x)
         == Some(BuildState(b.stack + [w], b.keys, b.root))
  {
    var n := |b.stack|;
    assert (b.stack + [v])[n := w] == b.stack + [w];
    if v.Obj? {
      assert (b.keys + ks)[..|b.keys|] == b.keys;
    } else {
      assert b.keys + ks == b.keys;
    }
  }

  lemma CloseSimulates(c: Config, s: Src, e: Event)
    requires c.frames != [] && Close(c, s).Some?
    requires Image(Top(c)) == Meaning(s)
    requires Top(c).FArr? || Top(c).pending.None?
    requires e.EEndArr? || e.EEndObj?
    ensures Step(Abs(c), e) == Some(Abs(Close(c, s).value))
  {
    var n := |c.frames|;
    var outer := c.(frames := c.frames[..n - 1]);
    Outer(c.frames);
    assert Abs(c).stack[..n - 1] == Abs(outer).stack;
    assert Pending(c.frames) == Pending(outer.frames) + [];
    assert Abs(c).(stack := Abs(c).stack[..n - 1]) == Abs(outer);
    PutSimulates(outer, s);
  }

  lemma OpenSimulates(c: Config, f: Frame)
    requires f == FArr([]) || f == FObj([], None)
    ensures Abs(c.(frames := c.frames + [f])) == Abs(c).(stack := Abs(c).stack + [Image(f)])
  {
    AbsOpen(c, f);
    assert Abs(c).keys + [] == Abs(c).keys;
  }

  lemma KeySimulates(c: Config, k: Text)
    requires c.frames != [] && Top(c).FObj? && Top(c).pending.None?
    ensures Abs(c.(frames := c.frames[|c.frames| - 1 := Top(c).(pending := Some(k))]))
         == Abs(c).(keys := Abs(c).keys + [UnitsOf(k)])
  {
    var n := |c.frames|;
    var fs := c.frames[n - 1 := Top(c).(pending := Some(k))];
    assert fs[..n - 1] == c.frames[..n - 1];
    Outer(fs);
    Outer(c.frames);
    assert Pending(c.frames) == Pending(c.frames[..n - 1]) + [];
  }

  lemma StepSimulates(c: Config, e: Event)
    requires Read(c, e).Some?
    ensures Step(Abs(c), e) == Some(Abs(Read(c, e).value))
  {
    match e
    case EBeginArr => OpenSimulates(c, FArr([]));
    case EBeginObj => OpenSimulates(c, FObj([], None));
    case EKey(k) => KeySimulates(c, k);
    case EEndArr => CloseSimulates(c, SArr(Top(c).items), e);
    case EEndObj => CloseSimulates(c, SObj(Top(c).fields), e);
    case ENull | EBool(_) | ENum(_) | EStr(_) => PutSimulates(c, SScalar(e));
  }

  /** Over every grammatical run, finished or not, the builder never panics: `put`
      never lacks a key, and both stacks mirror the open containers. */
  lemma {:induction false} RunSimulates(es: seq<Event>)
    requires ReadAll(es).Some?
    ensures Run(es) == Some(Abs(ReadAll(es).value))
  {
    if es != [] {
      RunSimulates(es[..|es| - 1]);
      StepSimulates(ReadAll(es[..|es| - 1]).value, es[|es| - 1]);
    }
  }

  // ----- Unique keys -----

  lemma PutMemberUnique(ms: seq<Member>, k: Units, v: V)
    requires Unique(Obj(ms)) && Unique(v)
    ensures Unique(Obj(PutMember(ms, k, v)))
  {
  }

  lemma {:induction false} MeaningUnique(s: Src)
    ensures Unique(Meaning(s))
    decreases s, 0
  {
    match s
    case SScalar(_) =>
    case SArr(items) => AllUnique(items);
    case SObj(fields) => MembersUnique(fields);
  }

  lemma {:induction false} AllUnique(items: seq<Src>)
    ensures Unique(Arr(MeaningAll(items)))
    decreases items, 1
  {
    if items != [] {
      AllUnique(items[..|items| - 1]);
      MeaningUnique(items[|items| - 1]);
      var vs := MeaningAll(items);
      assert forall i :: 0 <= i < |vs| - 1 ==> vs[i] == MeaningAll(items[..|items| - 1])[i];
    }
  }

  lemma {:induction false} MembersUnique(fields: seq<Field>)
    ensures Unique(Obj(Members(fields)))
    decreases fields, 1
  {
    if fields != [] {
      var f := fields[|fields| - 1];
      MembersUnique(fields[..|fields| - 1]);
      FieldUnique(f);
      PutMemberUnique(Members(fields[..|fields| - 1]), UnitsOf(f.key), Meaning(f.value));
    }
  }

  lemma {:induction false} FieldUnique(f: Field)
    ensures Unique(Meaning(f.value))
    decreases f, 2
  {
    match f case Field(_, v) => MeaningUnique(v);
  }

  /** Every value under construction has unique keys, at every point of every run. */
  lemma RunUnique(es: seq<Event>)
    requires ReadAll(es).Some?
    ensures Run(es).Some?
    ensures forall i :: 0 <= i < |Run(es).value.stack| ==> Unique(Run(es).value.stack[i])
    ensures Run(es).value.root.Some? ==> Unique(Run(es).value.root.value)
  {
    RunSimulates(es);
    var c := ReadAll(es).value;
    forall i | 0 <= i < |c.frames| ensures Unique(Image(c.frames[i])) {
      match c.frames[i]
      case FArr(items) => AllUnique(items);
      case FObj(fields, _) => MembersUnique(fields);
    }
    if c.done.Some? {
      MeaningUnique(c.done.value);
    }
  }

  // ----- The grammar accepts the events of documents, and nothing else -----

  function Events(s: Src): seq<Event> {
    match s
    case SScalar(e) => [e]
    case SArr(items) => [EBeginArr] + EventsAll(items) + [EEndArr]
    case SObj(fields) => [EBeginObj] + FieldEvents(fields) + [EEndObj]
  }

  function EventsAll(items: seq<Src>): seq<Event> {
    if items == [] then [] else EventsAll(items[..|items| - 1]) + Events(items[|items| - 1])
  }

  function FieldEvents(fields: seq<Field>): seq<Event> {
    if fields == [] then [] else FieldEvents(fields[..|fields| - 1]) + EventsOf(fields[|fields| - 1])
  }

  function EventsOf(f: Field): seq<Event> {
    match f case Field(k, v) => [EKey(k)] + Events(v)
  }

  lemma ReadMore(es: seq<Event>, e: Event)
    ensures ReadAll(es + [e]) == match ReadAll(es) case Some(c) => Read(c, e) case None => None
  {
    assert (es + [e])[..|es|] == es;
  }

  lemma CloseOpen(c: Config, f: Frame, s: Src)
    requires WantsValue(c)
    ensures Close(Open(c, f), s) == Some(Place(c, s))
  {
    assert (c.frames + [f])[..|c.frames|] == c.frames;
  }

  lemma Bracket<T>(a: seq<T>, x: T, b: seq<T>, y: T)
    ensures a + ([x] + b + [y]) == a + [x] + b + [y]
  {
  }

  /** Where a value is wanted, the events of any document read as that document. */
  lemma {:induction false} ReadsDocument(es: seq<Event>, c: Config, s: Src)
    requires ReadAll(es) == Some(c) && WantsValue(c)
    ensures ReadAll(es + Events(s)) == Some(Place(c, s))
    decreases s, 0
  {
    match s
    case SScalar(e) => ReadMore(es, e);
    case SArr(items) =>
      ReadMore(es, EBeginArr);
      ReadsItems(es + [EBeginArr], c, items);
      ReadsArray(es, c, items);
    case SObj(fields) =>
      ReadMore(es, EBeginObj);
      ReadsFields(es + [EBeginObj], c, fields);
      ReadsObject(es, c, fields);
  }

  lemma ReadsArray(es: seq<Event>, c: Config, items: seq<Src>)
    requires ReadAll(es + [EBeginArr] + EventsAll(items)) == Some(Open(c, FArr(items))) && WantsValue(c)
    ensures ReadAll(es + Events(SArr(items))) == Some(Place(c, SArr(items)))
  {
    ReadMore(es + [EBeginArr] + EventsAll(items), EEndArr);
    CloseOpen(c, FArr(items), SArr(items));
    Bracket(es, EBeginArr, EventsAll(items), EEndArr);
  }

  lemma ReadsObject(es: seq<Event>, c: Config, fields: seq<Field>)
    requires ReadAll(es + [EBeginObj] + FieldEvents(fields)) == Some(Open(c, FObj(fields, None))) && WantsValue(c)
    ensures ReadAll(es + Events(SObj(fields))) == Some(Place(c, SObj(fields)))
  {
    ReadMore(es + [EBeginObj] + FieldEvents(fields), EEndObj);
    CloseOpen(c, FObj(fields, None), SObj(fields));
    Bracket(es, EBeginObj, FieldEvents(fields), EEndObj);
  }

  lemma {:induction false} ReadsItems(es: seq<Event>, c: Config, items: seq<Src>)
    requires ReadAll(es) == Some(Open(c, FArr([])))
    ensures ReadAll(es + EventsAll(items)) == Some(Open(c, FArr(items)))
    decreases items, 1
  {
    if items == [] {
      assert es + [] == es;
    } else {
      var k := |items| - 1;
      var init, last := items[..k], items[k];
      ReadsItems(es, c, init);
      ReadsDocument(es + EventsAll(init), Open(c, FArr(init)), last);
      PlaceOpen(c, FArr(init), last);
      Assoc(es, EventsAll(init), Events(last));
      assert init + [last] == items;
    }
  }

  lemma {:induction false} ReadsFields(es: seq<Event>, c: Config, fields: seq<Field>)
    requires ReadAll(es) == Some(Open(c, FObj([], None)))
    ensures ReadAll(es + FieldEvents(fields)) == Some(Open(c, FObj(fields, None)))
    decreases fields, 1
  {
    if fields == [] {
      assert es + [] == es;
    } else {
      var k := |fields| - 1;
      ReadsFields(es, c, fields[..k]);
      ReadsField(es + FieldEvents(fields[..k]), c, fields[..k], fields[k]);
      assert fields[..k] + [fields[k]] == fields;
      Assoc(es, FieldEvents(fields[..k]), EventsOf(fields[k]));
    }
  }

  lemma {:induction false} ReadsField(es: seq<Event>, c: Config, fields: seq<Field>, f: Field)
    requires ReadAll(es) == Some(Open(c, FObj(fields, None)))
    ensures ReadAll(es + EventsOf(f)) == Some(Open(c, FObj(fields + [f], None)))
    decreases f, 2
  {
    match f case Field(k, v) =>
      ReadsKey(es, c, fields, k);
      ReadsDocument(es + [EKey(k)], Open(c, FObj(fields, Some(k))), v);
      PlaceOpen(c, FObj(fields, Some(k)), v);
      Assoc(es, [EKey(k)], Events(v));
  }

  lemma ReadsKey(es: seq<Event>, c: Config, fields: seq<Field>, k: Text)
    requires ReadAll(es) == Some(Open(c, FObj(fields, None)))
    ensures ReadAll(es + [EKey(k)]) == Some(Open(c, FObj(fields, Some(k))))
  {
    ReadMore(es, EKey(k));
    assert (c.frames + [FObj(fields, None)])[|c.frames| := FObj(fields, Some(k))] == c.frames + [FObj(fields, Some(k))];
  }

  function SpellFrame(f: Frame): seq<Event> {
    match f
    case FArr(items) => [EBeginArr] + EventsAll(items)
    case FObj(fields, p) => [EBeginObj] + FieldEvents(fields) + if p.Some? then [EKey(p.value)] else []
  }

  function Spell(fs: seq<Frame>): seq<Event> {
    if fs == [] then [] else Spell(fs[..|fs| - 1]) + SpellFrame(fs[|fs| - 1])
  }

  function SpellAll(c: Config): seq<Event> {
    if c.frames != [] then Spell(c.frames)
    else if c.done.Some? then Events(c.done.value)
    else []
  }

  predicate Sane(c: Config) { c.done.Some? ==> c.frames == [] }

  lemma SpellOpen(c: Config, f: Frame)
    requires Sane(c) && c.done.None?
    ensures SpellAll(Open(c, f)) == SpellAll(c) + SpellFrame(f)
  {
    assert (c.frames + [f])[..|c.frames|] == c.frames;
    if c.frames == [] {
      assert Spell([]) == [];
    }
  }

  lemma SpellGrow(f: Frame, s: Src)
    requires f.FArr? || f.pending.Some?
    ensures f.FArr? ==> SpellFrame(FArr(f.items + [s])) == SpellFrame(f) + Events(s)
    ensures f.FObj? ==> SpellFrame(FObj(f.fields + [Field(f.pending.value, s)], None)) == SpellFrame(f) + Events(s)
  {
    match f
    case FArr(items) =>
      assert (items + [s])[..|items|] == items;
      Assoc([EBeginArr], EventsAll(items), Events(s));
    case FObj(fields, p) =>
      assert (fields + [Field(p.value, s)])[..|fields|] == fields;
      FieldSpells(FieldEvents(fields), p.value, s);
  }

  lemma FieldSpells(es: seq<Event>, k: Text, s: Src)
    ensures [EBeginObj] + (es + EventsOf(Field(k, s))) + [] == [EBeginObj] + es + [EKey(k)] + Events(s)
  {
    assert EventsOf(Field(k, s)) == [EKey(k)] + Events(s);
  }

  lemma PlaceSpells(c: Config, s: Src)
    requires Sane(c) && WantsValue(c)
    ensures Sane(Place(c, s)) && SpellAll(Place(c, s)) == SpellAll(c) + Events(s)
  {
    if c.frames != [] {
      var outer, f := c.(frames := c.frames[..|c.frames| - 1]), Top(c);
      Reopen(c);
      PlaceOpen(outer, f, s);
      SpellGrow(f, s);
      SpellOpen(outer, f);
      var g := Top(Place(c, s));
      SpellOpen(outer, g);
      Extend(SpellAll(outer), SpellFrame(f), SpellFrame(g), SpellAll(c), SpellAll(Open(outer, g)), Events(s));
    }
  }

  lemma CloseSpells(c: Config, s: Src, e: Event)
    requires Sane(c) && c.frames != [] && Close(c, s).Some?
    requires SpellFrame(Top(c)) + [e] == Events(s)
    ensures Sane(Close(c, s).value) && SpellAll(Close(c, s).value) == SpellAll(c) + [e]
  {
    var outer := c.(frames := c.frames[..|c.frames| - 1]);
    Reopen(c);
    SpellOpen(outer, Top(c));
    PlaceSpells(outer, s);
    Assoc(SpellAll(outer), SpellFrame(Top(c)), [e]);
  }

  lemma PendingSpells(fields: seq<Field>, k: Text)
    ensures SpellFrame(FObj(fields, Some(k))) == SpellFrame(FObj(fields, None)) + [EKey(k)]
  {
    var es := [EBeginObj] + FieldEvents(fields);
    assert es + [] == es;
  }

  lemma KeySpells(c: Config, k: Text)
    requires Sane(c) && c.frames != [] && Top(c).FObj? && Top(c).pending.None?
    ensures SpellAll(Read(c, EKey(k)).value) == SpellAll(c) + [EKey(k)]
  {
    var outer, f := c.(frames := c.frames[..|c.frames| - 1]), Top(c);
    var g := f.(pending := Some(k));
    Reopen(c);
    assert c.frames[|c.frames| - 1 := g] == outer.frames + [g];
    assert Read(c, EKey(k)).value == Open(outer, g);
    SpellOpen(outer, f);
    SpellOpen(outer, g);
    PendingSpells(f.fields, k);
    Extend(SpellAll(outer), SpellFrame(f), SpellFrame(g), SpellAll(c), SpellAll(Open(outer, g)), [EKey(k)]);
  }

  lemma Extend<T>(a: seq<T>, f: seq<T>, g: seq<T>, all: seq<T>, all': seq<T>, more: seq<T>)
    requires all == a + f && all' == a + g && g == f + more
    ensures all' == all + more
  {
  }

  lemma EndSpells(f: Frame)
    ensures f.FArr? ==> SpellFrame(f) + [EEndArr] == Events(SArr(f.items))
    ensures f.FObj? && f.pending.None? ==> SpellFrame(f) + [EEndObj] == Events(SObj(f.fields))
  {
  }

  lemma StepSpells(c: Config, e: Event)
    requires Sane(c) && Read(c, e).Some?
    ensures Sane(Read(c, e).value) && SpellAll(Read(c, e).value) == SpellAll(c) + [e]
  {
    match e
    case EBeginArr => SpellOpen(c, FArr([]));
    case EBeginObj => SpellOpen(c, FObj([], None));
    case EKey(k) => KeySpells(c, k);
    case EEndArr | EEndObj => EndStepSpells(c, e);
    case ENull | EBool(_) | ENum(_) | EStr(_) => PlaceSpells(c, SScalar(e));
  }

  lemma EndStepSpells(c: Config, e: Event)
    requires e.EEndArr? || e.EEndObj?
    requires Sane(c) && Read(c, e).Some?
    ensures Sane(Read(c, e).value) && SpellAll(Read(c, e).value) == SpellAll(c) + [e]
  {
    EndSpells(Top(c));
    CloseSpells(c, if e.EEndArr? then SArr(Top(c).items) else SObj(Top(c).fields), e);
  }

  predicate Spelled(es: seq<Event>) {
    match ReadAll(es)
    case Some(c) => Sane(c) && SpellAll(c) == es
    case None => true
  }

  lemma SpelledMore(es: seq<Event>, e: Event)
    requires Spelled(es)
    ensures Spelled(es + [e])
  {
    ReadMore(es, e);
    if ReadAll(es + [e]).Some? {
      StepSpells(ReadAll(es).value, e);
    }
  }

  lemma {:induction false} RunSpells(es: seq<Event>)
    ensures Spelled(es)
  {
    if es != [] {
      var init, e := es[..|es| - 1], es[|es| - 1];
      assert es == init + [e];
      RunSpells(init);
      SpelledMore(init, e);
    }
  }

  /** The grammar is exactly the events of documents. */
  lemma GrammarIsDocuments(es: seq<Event>, s: Src)
    ensures ReadAll(es) == Some(Config([], Some(s))) <==> es == Events(s)
  {
    if es == Events(s) {
      ReadsDocument([], BLANK, s);
      assert [] + Events(s) == Events(s);
    }
    if ReadAll(es) == Some(Config([], Some(s))) {
      RunSpells(es);
    }
  }

  /** On the events of a document the builder ends with both stacks empty and the
      document's meaning at the root. */
  lemma BuildsMeaning(s: Src)
    ensures Run(Events(s)) == Some(BuildState([], [], Some(Meaning(s))))
  {
    GrammarIsDocuments(Events(s), s);
    RunSimulates(Events(s));
  }

  // ----- Repeated keys: first place, last value -----

  function FirstKeys(fields: seq<Field>): seq<Units> {
    if fields == [] then []
    else
      var init, k := FirstKeys(fields[..|fields| - 1]), UnitsOf(fields[|fields| - 1].key);
      if k in init then init else init + [k]
  }

  function LastValue(fields: seq<Field>, k: Units): Option<Src> {
    if fields == [] then None
    else if UnitsOf(fields[|fields| - 1].key) == k then Some(fields[|fields| - 1].value)
    else LastValue(fields[..|fields| - 1], k)
  }

  function Lookup(ms: seq<Member>, k: Units): Option<V> {
    match Find(ms, k)
    case Some(i) => Some(ms[i].value)
    case None => None
  }

  lemma PutMemberLooks(ms: seq<Member>, k: Units, v: V, q: Units)
    ensures Lookup(PutMember(ms, k, v), q) == if q == k then Some(v) else Lookup(ms, q)
  {
    var ns := PutMember(ms, k, v);
    assert forall j :: 0 <= j < |ms| ==> ns[j].key == ms[j].key && (ms[j].key != k ==> ns[j] == ms[j]);
    var a, b := Find(ms, q), Find(ns, q);
    if a.Some? {
      assert ns[a.value].key == q && b.Some? && b.value == a.value;
    } else if q == k {
      assert ns[|ms|].key == q && b.Some? && b.value == |ms|;
    } else {
      assert forall j :: 0 <= j < |ns| ==> ns[j].key != q;
    }
  }

  lemma PutMemberKeys(ms: seq<Member>, ks: seq<Units>, k: Units, v: V)
    requires |ks| == |ms| && forall j :: 0 <= j < |ms| ==> ms[j].key == ks[j]
    ensures var ns := PutMember(ms, k, v);
      var ls := if k in ks then ks else ks + [k];
      |ls| == |ns| && forall j :: 0 <= j < |ns| ==> ns[j].key == ls[j]
  {
  }

  /** An object's keys are the distinct keys in order of first appearance, and each
      has the meaning of its last value. */
  lemma {:induction false} MembersSpec(fields: seq<Field>, k: Units)
    ensures |Members(fields)| == |FirstKeys(fields)|
    ensures forall j :: 0 <= j < |Members(fields)| ==> Members(fields)[j].key == FirstKeys(fields)[j]
    ensures Lookup(Members(fields), k)
         == match LastValue(fields, k) case None => None case Some(s) => Some(Meaning(s))
  {
    if fields != [] {
      var init, f := fields[..|fields| - 1], fields[|fields| - 1];
      MembersSpec(init, k);
      PutMemberKeys(Members(init), FirstKeys(init), UnitsOf(f.key), Meaning(f.value));
      PutMemberLooks(Members(init), UnitsOf(f.key), Meaning(f.value), k);
    }
  }

  // ----- Building a value's own events -----

  function Source(v: V): Src {
    match v
    case Null => SScalar(ENull)
    case Bool(b) => SScalar(EBool(b))
    case Num(bits) => SScalar(ENum(bits))
    case Str(u) => SScalar(EStr(TextUtf16(u)))
    case Arr(items) => SArr(SourceAll(items))
    case Obj(ms) => SObj(SourceFields(ms))
  }

  function SourceAll(vs: seq<V>): seq<Src> {
    if vs == [] then [] else SourceAll(vs[..|vs| - 1]) + [Source(vs[|vs| - 1])]
  }

  function SourceFields(ms: seq<Member>): seq<Field> {
    if ms == [] then [] else SourceFields(ms[..|ms| - 1]) + [SourceField(ms[|ms| - 1])]
  }

  function SourceField(m: Member): Field {
    match m case Member(k, v) => Field(TextUtf16(k), Source(v))
  }

  /** The bits of a NaN: past those of infinity, but for the sign. */
  predicate PastInfinity(bits: u64) { bits % 0x8000_0000_0000_0000 > 0x7ff0_0000_0000_0000 }

  /** Every NaN inside `v` is the one that `f64::NAN` is. */
  predicate CanonicalNans(v: V) {
    match v
    case Num(bits) => PastInfinity(bits) ==> bits == 0x7ff8_0000_0000_0000
    case Arr(items) => forall i :: 0 <= i < |items| ==> CanonicalNans(items[i])
    case Obj(ms) => forall i :: 0 <= i < |ms| ==> CanonicalNans(ms[i].value)
    case _ => true
  }

  /** A number keeps its bits, and a NaN becomes `f64::NAN`. */
  lemma NumberKept(bits: u64)
    ensures Canonical(bits) == if PastInfinity(bits) then 0x7ff8_0000_0000_0000 else bits
  {
    var rest, high := bits % 0x10_0000_0000_0000, bits / 0x10_0000_0000_0000;
    assert bits == high * 0x10_0000_0000_0000 + rest && high < 0x1000;
    assert bits % 0x8000_0000_0000_0000 == (high % 0x800) * 0x10_0000_0000_0000 + rest;
  }

  lemma {:induction false} MeaningOfSource(v: V)
    requires Unique(v) && CanonicalNans(v)
    ensures Meaning(Source(v)) == v
    decreases v, 0
  {
    match v
    case Arr(items) => MeaningOfItems(items);
    case Obj(ms) => MeaningOfMembers(ms);
    case Num(bits) => NumberKept(bits);
    case _ =>
  }

  lemma {:induction false} MeaningOfItems(vs: seq<V>)
    requires Unique(Arr(vs)) && CanonicalNans(Arr(vs))
    ensures MeaningAll(SourceAll(vs)) == vs
    decreases vs, 1
  {
    if vs != [] {
      var init, last := vs[..|vs| - 1], vs[|vs| - 1];
      MeaningOfItems(init);
      MeaningOfSource(last);
      assert (SourceAll(init) + [Source(last)])[..|SourceAll(init)|] == SourceAll(init);
      assert init + [last] == vs;
    }
  }

  lemma {:induction false} MeaningOfMembers(ms: seq<Member>)
    requires Unique(Obj(ms)) && CanonicalNans(Obj(ms))
    ensures Members(SourceFields(ms)) == ms
    decreases ms, 1
  {
    if ms != [] {
      var init, last := ms[..|ms| - 1], ms[|ms| - 1];
      assert forall i :: 0 <= i < |init| ==> init[i] == ms[i];
      MeaningOfMembers(init);
      MeaningOfMember(last);
      assert (SourceFields(init) + [SourceField(last)])[..|SourceFields(init)|] == SourceFields(init);
      assert Find(init, last.key).None?;
      assert init + [last] == ms;
    }
  }

  lemma {:induction false} MeaningOfMember(m: Member)
    requires Unique(m.value) && CanonicalNans(m.value)
    ensures MeaningOf(SourceField(m)) == m
    decreases m, 2
  {
    match m case Member(_, v) => MeaningOfSource(v);
  }

  lemma {:induction false} MeaningCanonical(s: Src)
    ensures CanonicalNans(Meaning(s))
    decreases s, 0
  {
    match s
    case SScalar(e) =>
      if e.ENum? {
        NumberKept(e.bits);
      }
    case SArr(items) => ItemsCanonical(items);
    case SObj(fields) => FieldsCanonical(fields);
  }

  lemma {:induction false} ItemsCanonical(items: seq<Src>)
    ensures CanonicalNans(Arr(MeaningAll(items)))
    decreases items, 1
  {
    if items != [] {
      ItemsCanonical(items[..|items| - 1]);
      MeaningCanonical(items[|items| - 1]);
      var vs := MeaningAll(items);
      assert forall i :: 0 <= i < |vs| - 1 ==> vs[i] == MeaningAll(items[..|items| - 1])[i];
    }
  }

  lemma {:induction false} FieldsCanonical(fields: seq<Field>)
    ensures CanonicalNans(Obj(Members(fields)))
    decreases fields, 1
  {
    if fields != [] {
      FieldsCanonical(fields[..|fields| - 1]);
      FieldCanonical(fields[|fields| - 1]);
    }
  }

  lemma {:induction false} FieldCanonical(f: Field)
    ensures CanonicalNans(Meaning(f.value))
    decreases f, 2
  {
    match f case Field(_, v) => MeaningCanonical(v);
  }

  /** A value is what the builder makes of its own events exactly when its objects have
      unique keys and its NaNs are canonical. */
  lemma BuildRoundTrip(v: V)
    ensures Run(Events(Source(v))) == Some(BuildState([], [], Some(v))) <==> Unique(v) && CanonicalNans(v)
  {
    BuildsMeaning(Source(v));
    MeaningUnique(Source(v));
    MeaningCanonical(Source(v));
    if Unique(v) && CanonicalNans(v) {
      MeaningOfSource(v);
    }
  }

  /** A string event reads as the string it was spelled with, however it was spelled; and
      so does a key. */
  lemma TextKept(s: string, t: Text)
    requires t == TextStr(s) || t == TextUtf16(EncodeUtf16(s))
    ensures Run([EStr(t)]).Some? && Run([EStr(t)]).value.root.Some?
    ensures var v := Run([EStr(t)]).value.root.value; v.Str? && DecodeUtf16(v.units) == Some(s)
  {
    DecodeEncoded(s);
    BuildsMeaning(SScalar(EStr(t)));
  }

  lemma KeyKept(s: string, t: Text, x: Src)
    requires t == TextStr(s) || t == TextUtf16(EncodeUtf16(s))
    ensures var es := [EBeginObj] + ([EKey(t)] + Events(x)) + [EEndObj];
      && Run(es).Some? && Run(es).value.root.Some?
      && var v := Run(es).value.root.value;
         v.Obj? && |v.members| == 1 && DecodeUtf16(v.members[0].key) == Some(s) && v.members[0].value == Meaning(x)
  {
    DecodeEncoded(s);
    var f := Field(t, x);
    BuildsMeaning(SObj([f]));
    assert [f][..0] == [];
    assert Members([f]) == PutMember([], EncodeUtf16(s), Meaning(x)) == [] + [Member(EncodeUtf16(s), Meaning(x))];
    assert FieldEvents([f]) == [] + EventsOf(f) == EventsOf(f);
  }
}
