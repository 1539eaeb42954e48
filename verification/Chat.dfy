/** The closed-loop broadcast benchmark: `n` clients (bench/websocket-chat/client.js) and
    the room's server (bench/websocket-chat/server-esrun.js), with one first-in first-out
    queue in each direction per client, under every interleaving of their handlers. */
module Chat {
  import opened Common
  import opened Decimal

  type Queue = seq<string>

  const PAYLOAD: string := "xxxxxxxxxxxxxxxx"

  function Tag(i: nat): string { Dec(i) + ":" }

  function Message(i: nat): string { Tag(i) + PAYLOAD }

  predicate StartsWith(s: string, prefix: string) { prefix <= s }

  // ----- The handlers, as functions of the whole state -----

  datatype World = World(
    up: seq<Queue>,
    down: seq<Queue>,
    clients: set<nat>,
    ready: set<nat>,
    openCount: nat,
    sent: nat,
    received: nat)

  datatype Event =
    | Open(i: nat)     // client i's `onopen`
    | Accept(i: nat)   // the server's loop reaches client i and installs its handler
    | Serve(i: nat)    // the server handles client i's oldest message
    | Deliver(i: nat)  // client i handles its oldest delivery

  function Initial(n: nat): World {
    World(seq(n, _ => []), seq(n, _ => []), {}, {}, 0, 0, 0)
  }

  function Begin(w: World): World {
    w.(up := seq(|w.up|, i requires 0 <= i < |w.up| => w.up[i] + [Message(i)]), sent := w.sent + |w.up|)
  }

  function Broadcast(down: seq<Queue>, clients: set<nat>, data: string): (r: seq<Queue>)
    ensures |r| == |down|
    ensures forall j :: 0 <= j < |r| ==> r[j] == if j in clients then down[j] + [data] else down[j]
  {
    seq(|down|, j requires 0 <= j < |down| => if j in clients then down[j] + [data] else down[j])
  }

  /** None when the event cannot happen. Messages of a client that the server has not
      accepted yet wait. */
  function Step(w: World, e: Event): Option<World> {
    var n, i := |w.up|, e.i;
    if i >= n || i >= |w.down| then None
    else match e
      case Open(_) =>
        if i in w.ready then None
        else
          var w' := w.(ready := w.ready + {i}, openCount := w.openCount + 1);
          Some(if w'.openCount == n then Begin(w') else w')
      case Accept(_) =>
        if i in w.clients then None else Some(w.(clients := w.clients + {i}))
      case Serve(_) =>
        if i !in w.clients || w.up[i] == [] then None
        else Some(w.(up := w.up[i := w.up[i][1..]], down := Broadcast(w.down, w.clients, w.up[i][0])))
      case Deliver(_) =>
        if w.down[i] == [] then None
        else
          var data := w.down[i][0];
          var w' := w.(down := w.down[i := w.down[i][1..]], received := w.received + 1);
          Some(
            if StartsWith(data, Tag(i))
            then w'.(up := w.up[i := w.up[i] + [Message(i)]], sent := w.sent + 1)
            else w')
  }

  // ----- The tag identifies the originator -----

  lemma {:induction false} ColonSplits(a: string, b: string, x: string, y: string)
    requires AllDigits(a) && AllDigits(b) && a + ":" + x == b + ":" + y
    ensures a == b
  {
    var s := a + ":" + x;
    assert s == b + ":" + y;
    assert s[|a|] == s[|b|] == ':';
    assert forall k :: 0 <= k < |a| ==> s[k] == a[k];
    assert forall k :: 0 <= k < |b| ==> s[k] == b[k];
    assert s[..|a|] == a && s[..|b|] == b;
  }

  lemma TagPrefix(i: nat, j: nat, payload: string)
    requires StartsWith(Tag(i) + payload, Tag(j))
    ensures i == j
  {
    var rest := (Tag(i) + payload)[|Tag(j)|..];
    assert Tag(i) + payload == Tag(j) + rest;
    DecDigits(i);
    DecDigits(j);
    ColonSplits(Dec(i), Dec(j), payload, rest);
    DecInjective(i, j);
  }

  lemma TagIdentifies(i: nat, j: nat)
    ensures StartsWith(Message(i), Tag(j)) <==> i == j
  {
    if StartsWith(Message(i), Tag(j)) {
      TagPrefix(i, j, PAYLOAD);
    }
  }

  // ----- Counting -----

  function Sum(xs: seq<nat>): nat {
    if xs == [] then 0 else Sum(xs[..|xs| - 1]) + xs[|xs| - 1]
  }

  function Total(qs: seq<Queue>): nat {
    if qs == [] then 0 else Total(qs[..|qs| - 1]) + |qs[|qs| - 1]|
  }

  function Count(q: Queue, m: string): nat {
    if q == [] then 0 else Count(q[..|q| - 1], m) + if q[|q| - 1] == m then 1 else 0
  }

  /** How many of 0..n are in `s`. */
  function Present(s: set<nat>, n: nat): nat {
    if n == 0 then 0 else Present(s, n - 1) + if n - 1 in s then 1 else 0
  }

  lemma {:induction false} SumUpdate(xs: seq<nat>, i: nat, x: nat)
    requires i < |xs|
    ensures Sum(xs[i := x]) == Sum(xs) - xs[i] + x
  {
    var n := |xs| - 1;
    if i < n {
      SumUpdate(xs[..n], i, x);
      assert xs[i := x][..n] == xs[..n][i := x];
    } else {
      assert xs[i := x][..n] == xs[..n];
    }
  }

  lemma {:induction false} TotalUpdate(qs: seq<Queue>, i: nat, q: Queue)
    requires i < |qs|
    ensures Total(qs[i := q]) == Total(qs) - |qs[i]| + |q|
  {
    var n := |qs| - 1;
    if i < n {
      TotalUpdate(qs[..n], i, q);
      assert qs[i := q][..n] == qs[..n][i := q];
    } else {
      assert qs[i := q][..n] == qs[..n];
    }
  }

  lemma {:induction false} CountAppend(p: Queue, q: Queue, m: string)
    ensures Count(p + q, m) == Count(p, m) + Count(q, m)
  {
    if q == [] {
      assert p + q == p;
    } else {
      CountAppend(p, q[..|q| - 1], m);
      assert (p + q)[..|p + q| - 1] == p + q[..|q| - 1];
    }
  }

  lemma {:induction false} TotalBroadcast(down: seq<Queue>, clients: set<nat>, data: string)
    ensures Total(Broadcast(down, clients, data)) == Total(down) + Present(clients, |down|)
  {
    if down != [] {
      var n := |down| - 1;
      TotalBroadcast(down[..n], clients, data);
      assert Broadcast(down, clients, data)[..n] == Broadcast(down[..n], clients, data);
    }
  }

  lemma {:induction false} PresentAdd(s: set<nat>, i: nat, n: nat)
    requires i !in s
    ensures Present(s + {i}, n) == Present(s, n) + if i < n then 1 else 0
  {
    if n > 0 {
      PresentAdd(s, i, n - 1);
    }
  }

  lemma {:induction false} PresentAll(s: set<nat>, n: nat)
    ensures Present(s, n) <= n
    ensures Present(s, n) == n <==> forall i :: 0 <= i < n ==> i in s
  {
    if n > 0 {
      PresentAll(s, n - 1);
    }
  }

  lemma {:induction false} SumConstant(xs: seq<nat>, x: nat)
    requires forall i :: 0 <= i < |xs| ==> xs[i] == x
    ensures Sum(xs) == x * |xs|
  {
    if xs != [] {
      SumConstant(xs[..|xs| - 1], x);
    }
  }

  // ----- Runs and their history -----

  /** What happened, which no handler reads. */
  datatype Log = Log(
    broadcasts: Queue,         // every message the server handled, in order
    joined: seq<nat>,          // how many of them came before each client was accepted
    delivered: seq<Queue>,     // what each client has handled
    sentBy: seq<nat>,
    missed: nat)               // deliveries not made because a client was not accepted yet

  datatype Track = Track(w: World, log: Log)

  function Note(t: Track, e: Event): Log
    requires e.i < |t.w.up| == |t.w.down| == |t.log.joined| == |t.log.delivered| == |t.log.sentBy|
    requires Step(t.w, e).Some?
  {
    var w, log, i, n := t.w, t.log, e.i, |t.w.up|;
    match e
    case Open(_) =>
      if w.openCount + 1 == n then log.(sentBy := seq(n, j requires 0 <= j < n => log.sentBy[j] + 1)) else log
    case Accept(_) => log.(joined := log.joined[i := |log.broadcasts|])
    case Serve(_) => log.(broadcasts := log.broadcasts + [w.up[i][0]], missed := log.missed + (n - Here(w)))
    case Deliver(_) =>
      var data := w.down[i][0];
      var log' := log.(delivered := log.delivered[i := log.delivered[i] + [data]]);
      if StartsWith(data, Tag(i)) then log'.(sentBy := log.sentBy[i := log.sentBy[i] + 1]) else log'
  }

  /** How many clients the server has accepted. */
  function Here(w: World): (r: nat)
    ensures r <= |w.up|
  {
    PresentAll(w.clients, |w.up|);
    Present(w.clients, |w.up|)
  }

  predicate Started(w: World) { |w.up| > 0 && forall i :: 0 <= i < |w.up| ==> i in w.ready }

  // ----- The invariant -----

  predicate Shape(t: Track) {
    var w, log, n := t.w, t.log, |t.w.up|;
    && n == |w.down| == |log.joined| == |log.delivered| == |log.sentBy|
    && w.openCount == Present(w.ready, n)
  }

  /** Client `i`'s own messages under way, on the way up and on the way back. */
  function Outstanding(w: World, i: nat): nat
    requires i < |w.up| == |w.down|
  {
    |w.up[i]| + Count(w.down[i], Message(i))
  }

  predicate OneEach(t: Track)
    requires Shape(t)
  {
    && (forall i, k :: 0 <= i < |t.w.up| && 0 <= k < |t.w.up[i]| ==> t.w.up[i][k] == Message(i))
    && forall i :: 0 <= i < |t.w.up| ==> Outstanding(t.w, i) == if Started(t.w) then 1 else 0
  }

  /** Every client has seen, or will see, the broadcasts since it joined, in order. */
  predicate SameOrder(t: Track)
    requires Shape(t)
  {
    && (forall k :: 0 <= k < |t.log.broadcasts| ==> FromRoom(t.log.broadcasts[k], |t.w.up|))
    && forall i :: 0 <= i < |t.w.up| ==> Heard(t, i)
  }

  predicate FromRoom(m: string, n: nat) { exists k :: 0 <= k < n && Message(k) == m }

  predicate Heard(t: Track, i: nat)
    requires Shape(t) && i < |t.w.up|
  {
    if i in t.w.clients then
      && t.log.joined[i] <= |t.log.broadcasts|
      && t.log.delivered[i] + t.w.down[i] == t.log.broadcasts[t.log.joined[i]..]
    else t.log.delivered[i] == t.w.down[i] == []
  }

  predicate Counts(t: Track)
    requires Shape(t)
  {
    && t.w.sent == Sum(t.log.sentBy)
    && (forall i :: 0 <= i < |t.w.up| ==>
          t.log.sentBy[i] == (if Started(t.w) then 1 else 0) + Count(t.log.delivered[i], Message(i)))
  }

  predicate Conserved(t: Track) {
    t.w.received + Total(t.w.down) + |t.w.up| * Total(t.w.up) + t.log.missed == |t.w.up| * t.w.sent
  }

  predicate Inv(t: Track) {
    Shape(t) && OneEach(t) && SameOrder(t) && Counts(t) && Conserved(t)
  }

  // ----- What each event keeps -----

  function Next(t: Track, e: Event): Option<Track> {
    if e.i < |t.w.up| == |t.w.down| == |t.log.joined| == |t.log.delivered| == |t.log.sentBy| && Step(t.w, e).Some?
    then Some(Track(Step(t.w, e).value, Note(t, e)))
    else None
  }

  function Origin(n: nat): Track {
    Track(Initial(n), Log([], seq(n, _ => 0), seq(n, _ => []), seq(n, _ => 0), 0))
  }

  lemma {:induction false} Nothing(n: nat)
    ensures Sum(seq(n, _ => 0)) == 0 && Total(seq(n, _ => [])) == 0
    ensures Present({}, n) == 0
  {
    if n > 0 {
      Nothing(n - 1);
      assert seq(n, _ => 0)[..n - 1] == seq(n - 1, _ => 0);
      var qs: seq<Queue> := seq(n, _ => []);
      assert qs[..n - 1] == seq(n - 1, _ => []);
    }
  }

  lemma OriginInv(n: nat)
    ensures Inv(Origin(n))
  {
    Nothing(n);
  }

  lemma OpenKeeps(t: Track, i: nat)
    requires Inv(t) && Next(t, Open(i)).Some?
    ensures Inv(Next(t, Open(i)).value)
  {
    var t', n := Next(t, Open(i)).value, |t.w.up|;
    PresentAdd(t.w.ready, i, n);
    PresentAll(t.w.ready, n);
    PresentAll(t'.w.ready, n);
    assert !Started(t.w);
    assert t'.log.broadcasts == t.log.broadcasts;
    forall j | 0 <= j < n ensures Heard(t', j) {
      assert Heard(t, j);
    }
    if Started(t'.w) {
      BeginKeeps(t, t');
    } else {
      forall j | 0 <= j < n ensures Outstanding(t'.w, j) == 0 {
        assert Outstanding(t.w, j) == 0;
      }
    }
  }

  lemma BeginKeeps(t: Track, t': Track)
    requires Inv(t) && Shape(t') && !Started(t.w) && Started(t'.w)
    requires t'.w == Begin(t.w).(ready := t'.w.ready, openCount := t'.w.openCount)
    requires t'.log == t.log.(sentBy := seq(|t.w.up|, j requires 0 <= j < |t.w.up| => t.log.sentBy[j] + 1))
    ensures OneEach(t') && Counts(t') && Conserved(t')
  {
    BeginTotal(t.w.up, t'.w.up);
    SumBegin(t.log.sentBy, t'.log.sentBy);
    BeginConserves(|t.w.up|, t.w.received, Total(t.w.down), Total(t.w.up), t.log.missed, t.w.sent);
    BeginOneEach(t, t');
  }

  lemma BeginOneEach(t: Track, t': Track)
    requires Shape(t) && OneEach(t) && Shape(t') && !Started(t.w) && Started(t'.w)
    requires t'.w.up == Begin(t.w).up && t'.w.down == t.w.down
    ensures OneEach(t')
  {
    forall j | 0 <= j < |t.w.up| ensures t'.w.up[j] == [Message(j)] && Outstanding(t'.w, j) == 1 {
      assert Outstanding(t.w, j) == 0;
      FirstMessage(t.w.up[j], t.w.down[j], Message(j));
    }
  }

  lemma FirstMessage(up: Queue, down: Queue, m: string)
    requires |up| + Count(down, m) == 0
    ensures up + [m] == [m] && |up + [m]| + Count(down, m) == 1
  {
  }

  lemma BeginConserves(n: nat, received: nat, down: nat, up: nat, missed: nat, sent: nat)
    requires received + down + n * up + missed == n * sent
    ensures received + down + n * (up + n) + missed == n * (sent + n)
  {
  }

  lemma {:induction false} BeginTotal(p: seq<Queue>, q: seq<Queue>)
    requires |p| == |q| && forall i :: 0 <= i < |p| ==> |q[i]| == |p[i]| + 1
    ensures Total(q) == Total(p) + |p|
  {
    if p != [] {
      BeginTotal(p[..|p| - 1], q[..|p| - 1]);
    }
  }

  lemma {:induction false} SumBegin(p: seq<nat>, q: seq<nat>)
    requires |p| == |q| && forall i :: 0 <= i < |p| ==> q[i] == p[i] + 1
    ensures Sum(q) == Sum(p) + |p|
  {
    if p != [] {
      SumBegin(p[..|p| - 1], q[..|p| - 1]);
    }
  }

  lemma AcceptKeeps(t: Track, i: nat)
    requires Inv(t) && Next(t, Accept(i)).Some?
    ensures Inv(Next(t, Accept(i)).value)
  {
    var t' := Next(t, Accept(i)).value;
    forall j | 0 <= j < |t.w.up| ensures Heard(t', j) {
      assert Heard(t, j);
    }
    forall j | 0 <= j < |t.w.up| ensures Outstanding(t'.w, j) == Outstanding(t.w, j) {
    }
  }

  lemma ServeKeeps(t: Track, i: nat)
    requires Inv(t) && Next(t, Serve(i)).Some?
    ensures Inv(Next(t, Serve(i)).value)
  {
    var t', n := Next(t, Serve(i)).value, |t.w.up|;
    var m := t.w.up[i][0];
    assert m == Message(i);
    TotalUpdate(t.w.up, i, t.w.up[i][1..]);
    TotalBroadcast(t.w.down, t.w.clients, m);
    ServeConserves(n, t.w.received, Total(t.w.down), Total(t.w.up), t.log.missed, t.w.sent, Here(t.w));
    ServeSameOrder(t, i);
    forall j | 0 <= j < n ensures Outstanding(t'.w, j) == Outstanding(t.w, j) {
      ServeOutstanding(t, i, j);
    }
  }

  lemma ServeSameOrder(t: Track, i: nat)
    requires Inv(t) && Next(t, Serve(i)).Some?
    ensures Shape(Next(t, Serve(i)).value) && SameOrder(Next(t, Serve(i)).value)
  {
    var t', n := Next(t, Serve(i)).value, |t.w.up|;
    assert t.w.up[i][0] == Message(i) && FromRoom(Message(i), n);
    forall j | 0 <= j < n ensures Heard(t', j) {
      ServeHeard(t, i, j);
    }
  }

  lemma ServeConserves(n: nat, received: nat, down: nat, up: nat, missed: nat, sent: nat, here: nat)
    requires up > 0 && received + down + n * up + missed == n * sent
    ensures received + (down + here) + n * (up - 1) + (missed + (n - here)) == n * sent
  {
    assert n * (up - 1) == n * up - n;
  }

  lemma ServeHeard(t: Track, i: nat, j: nat)
    requires Inv(t) && Next(t, Serve(i)).Some? && j < |t.w.up|
    ensures Heard(Next(t, Serve(i)).value, j)
  {
    assert Heard(t, j);
    var m := t.w.up[i][0];
    if j in t.w.clients {
      var from := t.log.joined[j];
      assert (t.log.broadcasts + [m])[from..] == t.log.broadcasts[from..] + [m];
      assert t.log.delivered[j] + (t.w.down[j] + [m]) == t.log.delivered[j] + t.w.down[j] + [m];
    }
  }

  lemma ServeOutstanding(t: Track, i: nat, j: nat)
    requires Inv(t) && Next(t, Serve(i)).Some? && j < |t.w.up|
    ensures Outstanding(Next(t, Serve(i)).value.w, j) == Outstanding(t.w, j)
  {
    var m := t.w.up[i][0];
    assert m == Message(i);
    CountAppend(t.w.down[j], [m], Message(j));
    Single(m, Message(j));
    if i != j {
      MessagesDiffer(i, j);
    }
  }

  lemma Single(m: string, k: string)
    ensures Count([m], k) == if m == k then 1 else 0
  {
    assert [m][..0] == [];
  }

  lemma MessagesDiffer(i: nat, j: nat)
    requires i != j
    ensures Message(i) != Message(j)
  {
    TagIdentifies(i, j);
    TagIdentifies(j, j);
  }

  lemma DeliveredBefore(t: Track, i: nat)
    requires Inv(t) && Next(t, Deliver(i)).Some?
    ensures i in t.w.clients && FromRoom(t.w.down[i][0], |t.w.up|)
  {
    assert Heard(t, i);
    var heard := t.log.delivered[i] + t.w.down[i];
    assert heard[|t.log.delivered[i]|] == t.w.down[i][0];
  }

  /** A client's handler advances on its own message, and on no other of the room. */
  lemma OwnMessage(m: string, n: nat, i: nat)
    requires FromRoom(m, n)
    ensures StartsWith(m, Tag(i)) <==> m == Message(i)
  {
    var k :| 0 <= k < n && Message(k) == m;
    TagIdentifies(k, i);
    TagIdentifies(i, i);
  }

  lemma DeliverHeard(t: Track, i: nat, j: nat)
    requires Inv(t) && Next(t, Deliver(i)).Some? && j < |t.w.up|
    ensures Heard(Next(t, Deliver(i)).value, j)
  {
    assert Heard(t, j);
    if i == j {
      var data := t.w.down[i][0];
      assert t.log.delivered[i] + t.w.down[i] == (t.log.delivered[i] + [data]) + t.w.down[i][1..];
      DeliveredBefore(t, i);
    }
  }

  lemma DeliverCounts(t: Track, i: nat)
    requires Inv(t) && Next(t, Deliver(i)).Some?
    requires StartsWith(t.w.down[i][0], Tag(i)) <==> t.w.down[i][0] == Message(i)
    ensures Shape(Next(t, Deliver(i)).value) && Counts(Next(t, Deliver(i)).value)
  {
    var data := t.w.down[i][0];
    CountAppend(t.log.delivered[i], [data], Message(i));
    Single(data, Message(i));
    SumUpdate(t.log.sentBy, i, t.log.sentBy[i] + 1);
  }

  lemma DeliverOneEach(t: Track, i: nat)
    requires Inv(t) && Next(t, Deliver(i)).Some?
    requires StartsWith(t.w.down[i][0], Tag(i)) <==> t.w.down[i][0] == Message(i)
    ensures Shape(Next(t, Deliver(i)).value) && OneEach(Next(t, Deliver(i)).value)
  {
    var t', n := Next(t, Deliver(i)).value, |t.w.up|;
    var data, rest := t.w.down[i][0], t.w.down[i][1..];
    assert t.w.down[i] == [data] + rest;
    CountAppend([data], rest, Message(i));
    Single(data, Message(i));
    forall j | 0 <= j < n ensures Outstanding(t'.w, j) == Outstanding(t.w, j) {
    }
  }

  lemma DeliverKeeps(t: Track, i: nat)
    requires Inv(t) && Next(t, Deliver(i)).Some?
    ensures Inv(Next(t, Deliver(i)).value)
  {
    var t', n := Next(t, Deliver(i)).value, |t.w.up|;
    var data := t.w.down[i][0];
    DeliveredBefore(t, i);
    OwnMessage(data, n, i);
    forall j | 0 <= j < n ensures Heard(t', j) {
      DeliverHeard(t, i, j);
    }
    DeliverCounts(t, i);
    DeliverOneEach(t, i);
    TotalUpdate(t.w.down, i, t.w.down[i][1..]);
    if data == Message(i) {
      TotalUpdate(t.w.up, i, t.w.up[i] + [Message(i)]);
      DeliverConserves(n, t.w.received, Total(t.w.down), Total(t.w.up), t.log.missed, t.w.sent);
    }
  }

  lemma DeliverConserves(n: nat, received: nat, down: nat, up: nat, missed: nat, sent: nat)
    requires received + down + n * up + missed == n * sent
    ensures (received + 1) + (down - 1) + n * (up + 1) + missed == n * (sent + 1)
  {
  }

  // ----- The two programs, handler by handler -----

  class Room {
    const n: nat
    var up: seq<Queue>
    var down: seq<Queue>
    var clients: set<nat>
    var ready: set<nat>
    var openCount: nat
    var sent: nat
    var received: nat
    ghost var log: Log

    function State(): World
      reads this
    {
      World(up, down, clients, ready, openCount, sent, received)
    }

    ghost function Now(): Track
      reads this
    {
      Track(State(), log)
    }

    /** The invariant of all runs, with the history that led here. */
    ghost predicate Valid()
      reads this
    {
      |up| == n && Inv(Now())
    }

    constructor (n: nat)
      ensures this.n == n && Valid() && Now() == Origin(n)
    {
      this.n := n;
      up, down := seq(n, _ => []), seq(n, _ => []);
      clients, ready, openCount, sent, received := {}, {}, 0, 0, 0;
      log := Origin(n).log;
      new;
      OriginInv(n);
    }

    method Send(i: nat, data: string)
      requires i < |up|
      modifies this`up
      ensures up == old(up)[i := old(up)[i] + [data]]
    {
      up := up[i := up[i] + [data]];
    }

    method StartAll()
      requires |up| == n
      modifies this`up, this`sent
      ensures State() == Begin(old(State()))
    {
      var i := 0;
      while i < n
        invariant 0 <= i <= n == |up| && sent == old(sent) + i
        invariant forall j :: 0 <= j < n ==> up[j] == old(up)[j] + if j < i then [Message(j)] else []
      {
        Send(i, Message(i));
        sent := sent + 1;
        i := i + 1;
      }
    }

    method OnOpen(i: nat)
      requires Valid() && i < n && i !in ready
      modifies this
      ensures Valid() && Some(Now()) == Next(old(Now()), Open(i))
    {
      ghost var t := Now();
      NextKeeps(t, Open(i));
      ready := ready + {i};
      openCount := openCount + 1;
      if openCount == n {
        StartAll();
      }
      log := Note(t, Open(i));
    }

    method OnAccept(i: nat)
      requires Valid() && i < n && i !in clients
      modifies this`clients, this`log
      ensures Valid() && Some(Now()) == Next(old(Now()), Accept(i))
    {
      ghost var t := Now();
      NextKeeps(t, Accept(i));
      clients := clients + {i};
      log := Note(t, Accept(i));
    }

    method OnServerMessage(i: nat)
      requires Valid() && i in clients && i < n && up[i] != []
      modifies this`up, this`down, this`log
      ensures Valid() && Some(Now()) == Next(old(Now()), Serve(i))
    {
      ghost var t := Now();
      NextKeeps(t, Serve(i));
      var data := up[i][0];
      up := up[i := up[i][1..]];
      down := Broadcast(down, clients, data);
      log := Note(t, Serve(i));
    }

    method OnMessage(i: nat)
      requires Valid() && i < n && down[i] != []
      modifies this`up, this`down, this`sent, this`received, this`log
      ensures Valid() && Some(Now()) == Next(old(Now()), Deliver(i))
    {
      ghost var t := Now();
      NextKeeps(t, Deliver(i));
      Handle(i);
      log := Note(t, Deliver(i));
    }

    method Handle(i: nat)
      requires Step(State(), Deliver(i)).Some?
      modifies this`up, this`down, this`sent, this`received
      ensures State() == Step(old(State()), Deliver(i)).value
    {
      var data := down[i][0];
      down := down[i := down[i][1..]];
      received := received + 1;
      if StartsWith(data, Tag(i)) {
        sent := sent + 1;
        Send(i, Tag(i) + PAYLOAD);
      }
    }
  }

  // ----- Every run -----

  function Follow(t: Track, es: seq<Event>): Option<Track>
    decreases |es|
  {
    if es == [] then Some(t)
    else
      var t' :- Next(t, es[0]);
      Follow(t', es[1..])
  }

  function After(n: nat, es: seq<Event>): Option<Track> { Follow(Origin(n), es) }

  lemma NextKeeps(t: Track, e: Event)
    requires Inv(t) && Next(t, e).Some?
    ensures Inv(Next(t, e).value) && |Next(t, e).value.w.up| == |t.w.up|
  {
    match e
    case Open(i) => OpenKeeps(t, i);
    case Accept(i) => AcceptKeeps(t, i);
    case Serve(i) => ServeKeeps(t, i);
    case Deliver(i) => DeliverKeeps(t, i);
  }

  lemma {:induction false} FollowKeeps(t: Track, es: seq<Event>)
    requires Inv(t) && Follow(t, es).Some?
    ensures Inv(Follow(t, es).value) && |Follow(t, es).value.w.up| == |t.w.up|
    decreases |es|
  {
    if es != [] {
      NextKeeps(t, es[0]);
      FollowKeeps(Next(t, es[0]).value, es[1..]);
    }
  }

  /** The invariant holds after every run, whatever the interleaving. */
  lemma RunInv(n: nat, es: seq<Event>)
    requires After(n, es).Some?
    ensures Inv(After(n, es).value) && |After(n, es).value.w.up| == n
  {
    OriginInv(n);
    FollowKeeps(Origin(n), es);
  }

  /** From the start on every client has exactly one message of its own under way, so
      the room has `n`; before it there are none. */
  lemma OneOutstanding(n: nat, es: seq<Event>)
    requires After(n, es).Some?
    ensures var w := After(n, es).value.w;
      && |w.up| == |w.down| == n
      && (forall i :: 0 <= i < n ==> Outstanding(w, i) == if Started(w) then 1 else 0)
      && Sum(seq(n, i requires 0 <= i < n => Outstanding(w, i))) == if Started(w) then n else 0
  {
    RunInv(n, es);
    var w := After(n, es).value.w;
    SumConstant(seq(n, i requires 0 <= i < n => Outstanding(w, i)), if Started(w) then 1 else 0);
  }

  /** Each broadcast is accounted for once per client: delivered, on its way, or missed. */
  lemma DeliveriesConserved(n: nat, es: seq<Event>)
    requires After(n, es).Some?
    ensures var t := After(n, es).value;
      && t.w.received + Total(t.w.down) + n * Total(t.w.up) + t.log.missed == n * t.w.sent
      && |t.log.sentBy| == |t.log.delivered| == n
      && t.w.sent == Sum(t.log.sentBy)
      && (forall i :: 0 <= i < n ==>
            t.log.sentBy[i] == (if Started(t.w) then 1 else 0) + Count(t.log.delivered[i], Message(i)))
  {
    RunInv(n, es);
  }

  /** The deliveries never catch up: once started, `received` stays strictly below
      `n * sent`, by at least one delivery per client. */
  lemma NeverCatchesUp(n: nat, es: seq<Event>)
    requires After(n, es).Some?
    ensures var w := After(n, es).value.w; w.received + (if Started(w) then n else 0) <= n * w.sent
    ensures var w := After(n, es).value.w;
      After(n, es).value.log.missed == 0 ==>
        (w.received == n * w.sent <==> Total(w.down) == 0 && n * Total(w.up) == 0)
  {
    RunInv(n, es);
    var t := After(n, es).value;
    var w := t.w;
    if Started(w) {
      forall i | 0 <= i < n ensures |w.up[i]| + |w.down[i]| >= 1 {
        SomethingUnderWay(w, i);
      }
      AtLeastOneEach(w.up, w.down);
    }
    Lag(n, w.received, Total(w.down), Total(w.up), t.log.missed, w.sent);
  }

  lemma SomethingUnderWay(w: World, i: nat)
    requires i < |w.up| == |w.down| && Outstanding(w, i) == 1
    ensures |w.up[i]| + |w.down[i]| >= 1
  {
  }

  lemma Lag(n: nat, received: nat, down: nat, up: nat, missed: nat, sent: nat)
    requires received + down + n * up + missed == n * sent
    ensures received <= n * sent
    ensures n > 0 ==> received + down + up <= n * sent
    ensures missed == 0 ==> (received == n * sent <==> down == 0 && n * up == 0)
  {
    if n > 0 {
      assert up <= n * up;
    }
  }

  lemma {:induction false} AtLeastOneEach(up: seq<Queue>, down: seq<Queue>)
    requires |up| == |down| && forall i :: 0 <= i < |up| ==> |up[i]| + |down[i]| >= 1
    ensures Total(up) + Total(down) >= |up|
  {
    if up != [] {
      AtLeastOneEach(up[..|up| - 1], down[..|up| - 1]);
    }
  }

  // ----- Missed deliveries, order, progress -----

  predicate Full(w: World) { forall i :: 0 <= i < |w.up| ==> i in w.clients }

  /** In the run `es` from `t`, the server broadcasts only to the whole room. */
  predicate FullRooms(t: Track, es: seq<Event>)
    requires Follow(t, es).Some?
    decreases |es|
  {
    es == [] || ((es[0].Serve? ==> Full(t.w)) && FullRooms(Next(t, es[0]).value, es[1..]))
  }

  lemma {:induction false} MissedSince(t: Track, es: seq<Event>)
    requires Follow(t, es).Some?
    ensures Follow(t, es).value.log.missed >= t.log.missed
    ensures Follow(t, es).value.log.missed == t.log.missed <==> FullRooms(t, es)
    decreases |es|
  {
    if es != [] {
      PresentAll(t.w.clients, |t.w.up|);
      MissedSince(Next(t, es[0]).value, es[1..]);
    }
  }

  /** Nothing is missed exactly when every client was accepted before each broadcast. */
  lemma MissedNothing(n: nat, es: seq<Event>)
    requires After(n, es).Some?
    ensures After(n, es).value.log.missed == 0 <==> FullRooms(Origin(n), es)
  {
    MissedSince(Origin(n), es);
  }

  lemma HeardAt(t: Track, i: nat, x: nat)
    requires Inv(t) && i < |t.w.up| && x < |t.log.delivered[i]|
    ensures t.log.joined[i] + x < |t.log.broadcasts|
    ensures t.log.delivered[i][x] == t.log.broadcasts[t.log.joined[i] + x]
  {
    assert Heard(t, i);
    var heard := t.log.delivered[i] + t.w.down[i];
    assert heard[x] == t.log.delivered[i][x];
  }

  lemma HeardAlike(t: Track, j: nat, k: nat, d: nat, x: nat)
    requires Inv(t) && j < |t.w.up| && k < |t.w.up| && t.log.joined[k] == t.log.joined[j] + d
    requires x < |t.log.delivered[k]| && d + x < |t.log.delivered[j]|
    ensures t.log.delivered[k][x] == t.log.delivered[j][d + x]
  {
    HeardAt(t, k, x);
    HeardAt(t, j, d + x);
  }

  /** All clients handle the broadcasts in one order: after every run, `d` broadcasts having
      come between the joining of `j` and of `k`, their deliveries agree as far as both
      have come. */
  lemma SameSequence(n: nat, es: seq<Event>, j: nat, k: nat, d: nat, x: nat)
    requires After(n, es).Some? && j < n && k < n
    ensures var log := After(n, es).value.log;
      && |log.joined| == |log.delivered| == n
      && (log.joined[k] == log.joined[j] + d && x < |log.delivered[k]| && d + x < |log.delivered[j]|
          ==> log.delivered[k][x] == log.delivered[j][d + x])
  {
    RunInv(n, es);
    var t := After(n, es).value;
    if t.log.joined[k] == t.log.joined[j] + d && x < |t.log.delivered[k]| && d + x < |t.log.delivered[j]| {
      HeardAlike(t, j, k, d, x);
    }
  }

  /** `more` is a run of client `i`'s events alone, in which it sends once. */
  predicate SendsAgain(t: Track, i: nat, more: seq<Event>) {
    && (forall k :: 0 <= k < |more| ==> more[k].i == i)
    && Follow(t, more).Some?
    && var t' := Follow(t, more).value;
       i < |t.log.sentBy| == |t'.log.sentBy| && t'.log.sentBy[i] == t.log.sentBy[i] + 1
  }

  lemma Prepend(t: Track, i: nat, e: Event, more: seq<Event>)
    requires Inv(t) && e.i == i && Next(t, e).Some? && SendsAgain(Next(t, e).value, i, more)
    requires i < |t.w.up| && Next(t, e).value.log.sentBy == t.log.sentBy
    ensures SendsAgain(t, i, [e] + more)
  {
    assert ([e] + more)[1..] == more;
  }

  lemma {:induction false} Drains(t: Track, i: nat) returns (more: seq<Event>)
    requires Inv(t) && i < |t.w.up| && t.w.up[i] == [] && Started(t.w)
    ensures SendsAgain(t, i, more)
    decreases |t.w.down[i]|
  {
    var e := Deliver(i);
    assert Outstanding(t.w, i) == 1;
    DeliverKeeps(t, i);
    DeliveredBefore(t, i);
    OwnMessage(t.w.down[i][0], |t.w.up|, i);
    var t' := Next(t, e).value;
    if t.w.down[i][0] == Message(i) {
      more := [e];
      assert Follow(t', more[1..]) == Some(t');
    } else {
      more := Drains(t', i);
      Prepend(t, i, e, more);
      more := [e] + more;
    }
  }

  lemma Served(t: Track, i: nat) returns (more: seq<Event>)
    requires Inv(t) && i < |t.w.up| && t.w.up[i] != [] && i in t.w.clients && Started(t.w)
    ensures SendsAgain(t, i, more)
  {
    assert Outstanding(t.w, i) == 1;
    ServeKeeps(t, i);
    more := Drains(Next(t, Serve(i)).value, i);
    Prepend(t, i, Serve(i), more);
    more := [Serve(i)] + more;
  }

  /** No client is ever stuck: whatever the others do, its own events can bring its
      message back to it, and it sends again. */
  lemma ComesBack(t: Track, i: nat) returns (more: seq<Event>)
    requires Inv(t) && i < |t.w.up| && Started(t.w)
    ensures SendsAgain(t, i, more)
  {
    if t.w.up[i] == [] {
      more := Drains(t, i);
    } else if i in t.w.clients {
      more := Served(t, i);
    } else {
      AcceptKeeps(t, i);
      more := Served(Next(t, Accept(i)).value, i);
      Prepend(t, i, Accept(i), more);
      more := [Accept(i)] + more;
    }
  }
}
