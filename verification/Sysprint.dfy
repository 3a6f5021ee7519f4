/** SYSPRINT: class names, sinks, and the record buffer that a kernel fills and the host drains. */
module Sysprint {

  const MAX_CLASSES: nat := 128
  const MAX_CLASS_NAME: nat := 64
  const MAX_SINKS: nat := 16
  const CLASS_NONE: nat := 0
  const HEADER: nat := 8
  const U32: nat := 0x1_0000_0000

  type Byte = x: int | 0 <= x < 256

  datatype Option<T> = None | Some(value: T)

  datatype Record = Record(id: nat, payload: seq<Byte>)

  datatype Sink = Sink(pattern: string, prefix: bool, id: nat)

  /** One call of a sink. */
  datatype Delivery = Delivery(sink: nat, id: nat, name: string, payload: seq<Byte>)

  // ---- Class names and sinks ----

  predicate Usable(name: string) {
    0 < |name| < MAX_CLASS_NAME
  }

  predicate Matches(s: Sink, name: string) {
    if s.prefix then s.pattern <= name else s.pattern == name
  }

  /** i is the first sink that matches, or there is none and i is their number. */
  ghost predicate FirstMatch(sinks: seq<Sink>, name: string, i: nat) {
    && i <= |sinks| && (i < |sinks| ==> Matches(sinks[i], name))
    && forall j :: 0 <= j < i ==> !Matches(sinks[j], name)
  }

  /** The name behind a class number. */
  function NameOf(classes: seq<string>, id: nat): Option<string> {
    if id == CLASS_NONE || id > |classes| then None else Some(classes[id - 1])
  }

  ghost predicate NoDuplicates(classes: seq<string>) {
    forall i, j :: 0 <= i < j < |classes| ==> classes[i] != classes[j]
  }

  class Registry {
    var classes: seq<string>
    var sinks: seq<Sink>

    ghost predicate Valid()
      reads this
    {
      && |classes| <= MAX_CLASSES && |sinks| <= MAX_SINKS && NoDuplicates(classes)
      && forall i :: 0 <= i < |classes| ==> Usable(classes[i])
    }

    constructor ()
      ensures Valid() && classes == [] && sinks == []
    {
      classes, sinks := [], [];
    }

    /** The number of a class name, new or old; a name that is unusable or finds the table full gets
        none.  Numbers given out before keep their names. */
    method Intern(name: string) returns (id: nat)
      requires Valid()
      modifies this`classes
      ensures Valid() && old(classes) <= classes
      ensures id != CLASS_NONE <==> Usable(name) && (name in old(classes) || |old(classes)| < MAX_CLASSES)
      ensures id != CLASS_NONE ==> NameOf(classes, id) == Some(name)
      ensures id == CLASS_NONE || name in old(classes) ==> classes == old(classes)
    {
      var n := |name|;
      if n == 0 || n >= MAX_CLASS_NAME {
        return CLASS_NONE;
      }
      for i := 0 to |classes|
        invariant name !in classes[..i]
      {
        if |classes[i]| == n && classes[i] == name {
          return i + 1;
        }
      }
      assert classes[..|classes|] == classes;
      if |classes| >= MAX_CLASSES {
        return CLASS_NONE;
      }
      classes := classes + [name];
      id := |classes|;
    }

    /** A trailing * makes the rest a prefix. */
    method RegisterSink(pattern: string, id: nat) returns (ok: bool)
      requires Valid()
      modifies this`sinks
      ensures Valid() && (ok <==> |old(sinks)| < MAX_SINKS && Usable(pattern))
      ensures !ok ==> sinks == old(sinks)
      ensures ok ==> |sinks| == |old(sinks)| + 1 && old(sinks) <= sinks && sinks[|sinks| - 1].id == id
      ensures ok ==> forall name :: Matches(sinks[|sinks| - 1], name) <==> PatternMatches(pattern, name)
    {
      var n := |pattern|;
      if |sinks| >= MAX_SINKS || n == 0 || n >= MAX_CLASS_NAME {
        return false;
      }
      if pattern[n - 1] == '*' {
        sinks := sinks + [Sink(pattern[..n - 1], true, id)];
      } else {
        sinks := sinks + [Sink(pattern, false, id)];
      }
      ok := true;
    }

    method MatchSink(name: string) returns (i: nat)
      ensures FirstMatch(sinks, name, i)
    {
      i := 0;
      while i < |sinks|
        invariant i <= |sinks| && forall j :: 0 <= j < i ==> !Matches(sinks[j], name)
      {
        var e := sinks[i];
        if e.prefix {
          if |e.pattern| == 0 {
            return;
          }
          if |name| >= |e.pattern| && name[..|e.pattern|] == e.pattern {
            return;
          }
        } else if |name| == |e.pattern| && name == e.pattern {
          return;
        }
        i := i + 1;
      }
    }
  }

  /** What the documentation says of patterns: an exact name, or a prefix followed by *. */
  ghost predicate PatternMatches(pattern: string, name: string) {
    |pattern| > 0 &&
    var n := |pattern| - 1;
    if pattern[n] == '*' then |name| >= n && forall i :: 0 <= i < n ==> name[i] == pattern[i] else name == pattern
  }

  // ---- Bytes ----

  function Le32(v: nat): (r: seq<Byte>)
    requires v < U32
    ensures |r| == 4
  {
    var a := v / 256;
    var b := a / 256;
    [v % 256, a % 256, b % 256, b / 256]
  }

  function FromLe32(s: seq<Byte>): (v: nat)
    requires |s| == 4
    ensures v < U32
  {
    var a: int, b: int, c: int, d: int := s[0], s[1], s[2], s[3];
    a + 256 * (b + 256 * (c + 256 * d))
  }

  lemma Le32RoundTrip(v: nat)
    requires v < U32
    ensures FromLe32(Le32(v)) == v
  {
  }

  /** sp_align4 on 32-bit words. */
  function Align4(n: nat): (r: nat) {
    (n + 3) % U32 / 4 * 4
  }

  function RecordBytes(n: nat): nat {
    (HEADER + Align4(n)) % U32
  }

  lemma RecordSize(n: nat)
    requires n + HEADER + 3 < U32
    ensures RecordBytes(n) == HEADER + Align4(n) && n <= Align4(n) < n + 4
  {
  }

  // ---- Records in bytes ----

  function PayloadLength(bytes: seq<Byte>): nat
    requires |bytes| >= HEADER
  {
    FromLe32(bytes[4..8])
  }

  /** A whole record stands at the front of bytes. */
  predicate Starts(bytes: seq<Byte>) {
    && |bytes| >= HEADER && RecordBytes(PayloadLength(bytes)) <= |bytes|
    && PayloadLength(bytes) + HEADER + 3 < U32
  }

  /** What a reader makes of the filled part of a buffer. */
  ghost function Parse(bytes: seq<Byte>): seq<Record>
    decreases |bytes|
  {
    if !Starts(bytes) then []
    else
      var n := PayloadLength(bytes);
      RecordSize(n);
      [Record(FromLe32(bytes[..4]), bytes[HEADER..HEADER + n])] + Parse(bytes[RecordBytes(n)..])
  }

  /** The filled part holds whole records and nothing else. */
  ghost predicate WellFormed(bytes: seq<Byte>)
    decreases |bytes|
  {
    bytes == [] || (Starts(bytes)
                    && (RecordSize(PayloadLength(bytes)); WellFormed(bytes[RecordBytes(PayloadLength(bytes))..])))
  }

  lemma {:induction false} ParseAppend(a: seq<Byte>, b: seq<Byte>)
    requires WellFormed(a)
    ensures Parse(a + b) == Parse(a) + Parse(b)
    ensures WellFormed(b) ==> WellFormed(a + b)
    decreases |a|
  {
    hide FromLe32, RecordBytes, Starts, Parse, WellFormed;
    EmptyParse();
    if a == [] {
      assert a + b == b && [] + Parse(b) == Parse(b);
    } else {
      ParseUnfold(a);
      FrontKept(a, b);
      ParseUnfold(a + b);
      ParseAppend(a[RecordBytes(PayloadLength(a))..], b);
    }
  }

  lemma ParseUnfold(bytes: seq<Byte>)
    requires bytes != []
    ensures WellFormed(bytes) ==> Starts(bytes)
    ensures Starts(bytes) ==>
              var n := PayloadLength(bytes);
              && HEADER + n <= RecordBytes(n) <= |bytes|
              && Parse(bytes) == [Record(FromLe32(bytes[..4]), bytes[HEADER..HEADER + n])]
                   + Parse(bytes[RecordBytes(n)..])
              && (WellFormed(bytes) <==> WellFormed(bytes[RecordBytes(n)..]))
  {
    hide FromLe32;
    if Starts(bytes) {
      RecordSize(PayloadLength(bytes));
    }
  }

  /** The first record of a is the first record of a + b. */
  lemma FrontKept(a: seq<Byte>, b: seq<Byte>)
    requires Starts(a)
    ensures Starts(a + b) && PayloadLength(a + b) == PayloadLength(a) && (a + b)[..4] == a[..4]
    ensures var n := PayloadLength(a);
            && HEADER + n <= RecordBytes(n) <= |a| && (a + b)[HEADER..HEADER + n] == a[HEADER..HEADER + n]
            && (a + b)[RecordBytes(n)..] == a[RecordBytes(n)..] + b
  {
    hide FromLe32;
    var n := PayloadLength(a);
    RecordSize(n);
    hide RecordBytes;
    assert (a + b)[4..8] == a[4..8];
  }

  /** e is one record, padding included. */
  ghost predicate OneRecord(e: seq<Byte>, id: nat, payload: seq<Byte>)
    requires id < U32 && |payload| < U32
  {
    && |payload| + HEADER + 3 < U32 && |e| == RecordBytes(|payload|) && |e| >= HEADER + |payload|
    && e[..4] == Le32(id) && e[4..8] == Le32(|payload|) && e[HEADER..HEADER + |payload|] == payload
  }

  lemma ParseOne(e: seq<Byte>, id: nat, payload: seq<Byte>)
    requires id < U32 && |payload| < U32 && OneRecord(e, id, payload)
    ensures WellFormed(e) && Parse(e) == [Record(id, payload)]
  {
    Le32RoundTrip(id);
    Le32RoundTrip(|payload|);
    hide Le32, FromLe32;
    RecordSize(|payload|);
    assert e[RecordBytes(|payload|)..] == [];
  }

  // ---- The buffer ----

  /** Copy bytes into a buffer. */
  method CopyIn(data: array<Byte>, at: nat, src: seq<Byte>)
    requires at + |src| <= data.Length
    modifies data
    ensures data[..] == old(data[..at]) + src + old(data[at + |src|..])
  {
    for i := 0 to |src|
      modifies data
      invariant data[..at] == old(data[..at])
      invariant data[at..at + i] == src[..i]
      invariant data[at + i..] == old(data[at + i..])
    {
      ghost var tail := data[at + i..];
      data[at + i] := src[i];
      assert data[at + i + 1..] == tail[1..];
      assert data[at..at + i + 1] == data[at..at + i] + [src[i]];
    }
  }

  function Pasted(s: seq<Byte>, at: nat, src: seq<Byte>): seq<Byte>
    requires at + |src| <= |s|
  {
    s[..at] + src + s[at + |src|..]
  }

  /** Header and then payload leave the bytes before them alone. */
  lemma TwoPastes(s: seq<Byte>, at: nat, x: seq<Byte>, y: seq<Byte>)
    requires at + |x| + |y| <= |s|
    ensures var t := Pasted(Pasted(s, at, x), at + |x|, y);
            |t| == |s| && t[..at] == s[..at] && t[at..at + |x|] == x && t[at + |x|..at + |x| + |y|] == y
  {
    var u := Pasted(s, at, x);
    assert u[..at + |x|] == s[..at] + x;
  }

  /** The exact size of a record, where 32-bit arithmetic does not wrap. */
  predicate Small(head: nat, n: nat) {
    head + n + HEADER + 3 < U32
  }

  class Buffer {
    var data: array<Byte>
    var size: nat
    var head: nat
    var dropped: nat

    ghost predicate Valid()
      reads this, data
    {
      head <= size <= data.Length && size < U32 && dropped < U32 && WellFormed(data[..head])
    }

    /** The records accepted since the last drain. */
    ghost function Records(): seq<Record>
      requires Valid()
      reads this, data
    {
      Parse(data[..head])
    }

    constructor (data: array<Byte>, size: nat)
      requires size <= data.Length && size < U32
      ensures Valid() && this.data == data && this.size == size && Records() == [] && dropped == 0 && head == 0
    {
      this.data, this.size, head, dropped := data, size, 0, 0;
    }

    predicate Fits(n: nat)
      reads this
    {
      head + HEADER + Align4(n) <= size
    }

    /** Header and payload at the head; the padding keeps what it held. */
    method WriteRecord(id: nat, payload: seq<Byte>)
      requires Valid() && id < U32 && Small(head, |payload|) && Fits(|payload|)
      modifies data
      ensures RecordBytes(|payload|) + head <= size && data[..head] == old(data[..head])
      ensures OneRecord(data[head..head + RecordBytes(|payload|)], id, payload)
    {
      hide Parse, WellFormed, Le32, OneRecord;
      RecordSize(|payload|);
      ghost var s0 := data[..];
      var hd := Le32(id) + Le32(|payload|);
      CopyIn(data, head, hd);
      ghost var s1 := data[..];
      assert s1 == Pasted(s0, head, hd);
      if |payload| > 0 {
        CopyIn(data, head + HEADER, payload);
      }
      assert data[..] == Pasted(s1, head + HEADER, payload);
      TwoPastes(s0, head, hd, payload);
      SliceRecord(data[..], head, id, payload);
      assert data[..][head..head + RecordBytes(|payload|)] == data[head..head + RecordBytes(|payload|)];
      assert data[..][..head] == data[..head] && s0[..head] == old(data[..head]);
    }

    /** A record is appended whole or dropped and counted. */
    method Emit(id: nat, payload: seq<Byte>)
      requires Valid() && id < U32 && Small(head, |payload|)
      modifies this`head, this`dropped, data
      ensures Valid() && data == old(data) && size == old(size)
      ensures old(id != CLASS_NONE && Fits(|payload|)) ==>
                Records() == old(Records()) + [Record(id, payload)] && dropped == old(dropped)
                && head == old(head) + HEADER + Align4(|payload|)
      ensures !old(id != CLASS_NONE && Fits(|payload|)) ==>
                Records() == old(Records()) && dropped == (old(dropped) + 1) % U32 && head == old(head)
    {
      hide Parse, WellFormed, OneRecord;
      if id == CLASS_NONE {
        dropped := (dropped + 1) % U32;
        return;
      }
      var need := RecordBytes(|payload|);
      RecordSize(|payload|);
      if (head + need) % U32 > size {
        dropped := (dropped + 1) % U32;
        return;
      }
      ghost var was := data[..head];
      WriteRecord(id, payload);
      ghost var e := data[head..head + need];
      ParseOne(e, id, payload);
      ParseAppend(was, e);
      assert data[..head + need] == was + e;
      head := (head + need) % U32;
    }
  }

  // ---- Draining ----

  /** The first sink that matches, or the number of sinks. */
  function SinkFor(sinks: seq<Sink>, name: string, from: nat): (i: nat)
    requires from <= |sinks|
    ensures from <= i <= |sinks| && (i < |sinks| ==> Matches(sinks[i], name))
    ensures forall j :: from <= j < i ==> !Matches(sinks[j], name)
    decreases |sinks| - from
  {
    if from == |sinks| || Matches(sinks[from], name) then from else SinkFor(sinks, name, from + 1)
  }

  lemma FirstMatchUnique(sinks: seq<Sink>, name: string, i: nat)
    requires FirstMatch(sinks, name, i)
    ensures i == SinkFor(sinks, name, 0)
  {
  }

  /** Where one record goes: to the first matching sink of its class, or nowhere. */
  function RouteOne(classes: seq<string>, sinks: seq<Sink>, r: Record): seq<Delivery> {
    var name := NameOf(classes, r.id);
    if name.None? then []
    else
      var i := SinkFor(sinks, name.value, 0);
      if i < |sinks| then [Delivery(i, r.id, name.value, r.payload)] else []
  }

  ghost function Route(classes: seq<string>, sinks: seq<Sink>, rs: seq<Record>): seq<Delivery> {
    if rs == [] then [] else RouteOne(classes, sinks, rs[0]) + Route(classes, sinks, rs[1..])
  }

  /** A record of a known class with a sink for it. */
  ghost predicate Deliverable(classes: seq<string>, sinks: seq<Sink>, r: Record) {
    0 < r.id <= |classes| && exists i :: 0 <= i < |sinks| && Matches(sinks[i], classes[r.id - 1])
  }

  /** Each record has arrived once, in order, unchanged, at the first sink that matches its class. */
  ghost predicate Arrived(classes: seq<string>, sinks: seq<Sink>, rs: seq<Record>, ds: seq<Delivery>) {
    |ds| == |rs| && forall i :: 0 <= i < |rs| ==>
      && ds[i].id == rs[i].id && ds[i].payload == rs[i].payload && 0 < rs[i].id <= |classes|
      && ds[i].name == classes[rs[i].id - 1]
      && ds[i].sink < |sinks| && FirstMatch(sinks, ds[i].name, ds[i].sink)
  }

  /** When every record has a sink, drain hands over each of them, in order, unchanged, to the first
      sink that matches its class. */
  lemma {:induction false} RouteDelivers(classes: seq<string>, sinks: seq<Sink>, rs: seq<Record>)
    requires forall i :: 0 <= i < |rs| ==> Deliverable(classes, sinks, rs[i])
    ensures Arrived(classes, sinks, rs, Route(classes, sinks, rs))
  {
    if rs != [] {
      assert Deliverable(classes, sinks, rs[0]);
      OneDelivered(classes, sinks, rs[0]);
      RouteDelivers(classes, sinks, rs[1..]);
      hide RouteOne, Deliverable, FirstMatch;
      ArrivedMore(classes, sinks, rs[0], rs[1..], RouteOne(classes, sinks, rs[0]), Route(classes, sinks, rs[1..]));
      assert [rs[0]] + rs[1..] == rs;
    }
  }

  lemma OneDelivered(classes: seq<string>, sinks: seq<Sink>, r: Record)
    requires Deliverable(classes, sinks, r)
    ensures Arrived(classes, sinks, [r], RouteOne(classes, sinks, r))
  {
    hide Matches;
    var name := classes[r.id - 1];
    var i := SinkFor(sinks, name, 0);
    assert FirstMatch(sinks, name, i) && i < |sinks|;
  }

  lemma ArrivedMore(classes: seq<string>, sinks: seq<Sink>, r: Record, rs: seq<Record>, d: seq<Delivery>,
      ds: seq<Delivery>)
    requires Arrived(classes, sinks, [r], d) && Arrived(classes, sinks, rs, ds)
    ensures Arrived(classes, sinks, [r] + rs, d + ds)
  {
    hide FirstMatch;
  }

  /** bc_sp_drain: every record goes to its sink, and the buffer is empty again. */
  method Drain(buf: Buffer, reg: Registry) returns (ds: seq<Delivery>)
    requires buf.Valid()
    modifies buf`head
    ensures buf.Valid() && buf.head == 0 && buf.Records() == []
    ensures ds == Route(reg.classes, reg.sinks, old(buf.Records()))
  {
    hide Parse, WellFormed, Route, RouteOne, Le32, FromLe32, Starts, RecordBytes;
    ghost var bytes := buf.data[..buf.head];
    ghost var all := Parse(bytes);
    EmptyParse();
    ds := [];
    var pos := 0;
    assert bytes[0..] == bytes;
    while pos + HEADER <= buf.head
      modifies {}
      invariant pos <= buf.head && WellFormed(bytes[pos..])
      invariant ds + Route(reg.classes, reg.sinks, Parse(bytes[pos..])) == Route(reg.classes, reg.sinks, all)
      decreases buf.head - pos
    {
      NextRecord(bytes, pos);
      ReadHere(buf.data[..], buf.head, pos);
      var id := FromLe32(buf.data[pos..pos + 4]);
      var n := FromLe32(buf.data[pos + 4..pos + 8]);
      SameBytes(buf.data, pos, pos + 4);
      SameBytes(buf.data, pos + 4, pos + 8);
      var need := RecordBytes(n);
      if (pos + need) % U32 > buf.head {
        break;
      }
      var payload := buf.data[pos + HEADER..pos + HEADER + n];
      SameBytes(buf.data, pos + HEADER, pos + HEADER + n);
      RouteStep(reg.classes, reg.sinks, Record(id, payload), Parse(bytes[pos + need..]));
      var one := DispatchOne(reg, id, payload);
      ds := ds + one;
      pos := pos + need;
    }
    LastRecord(bytes, pos);
    RouteNothing(reg.classes, reg.sinks);
    assert ds + [] == ds;
    buf.head := 0;
    assert buf.data[..buf.head] == [];
  }

  lemma EmptyParse()
    ensures Parse([]) == [] && WellFormed([])
  {
  }

  lemma RouteNothing(classes: seq<string>, sinks: seq<Sink>)
    ensures Route(classes, sinks, []) == []
  {
  }

  lemma SliceSlice(data: seq<Byte>, head: nat, pos: nat, i: nat, j: nat)
    requires i <= j && pos + j <= head <= |data|
    ensures data[..head][pos..][i..j] == data[pos + i..pos + j]
  {
    var l, r := data[..head][pos..][i..j], data[pos + i..pos + j];
    forall k | 0 <= k < j - i
      ensures l[k] == r[k]
    {
      assert data[..head][pos..][i + k] == data[pos + i + k];
    }
  }

  lemma SameBytes(data: array<Byte>, i: nat, j: nat)
    requires i <= j <= data.Length
    ensures data[..][i..j] == data[i..j]
  {
  }

  /** Header fields and payload, read straight from the buffer. */
  lemma ReadHere(data: seq<Byte>, head: nat, pos: nat)
    requires pos + HEADER <= head <= |data|
    ensures var b := data[..head][pos..]; var n := PayloadLength(b);
            && b[..4] == data[pos..pos + 4] && n == FromLe32(data[pos + 4..pos + 8])
            && (HEADER + n <= |b| ==> b[HEADER..HEADER + n] == data[pos + HEADER..pos + HEADER + n])
  {
    hide FromLe32;
    var b := data[..head][pos..];
    SliceSlice(data, head, pos, 0, 4);
    SliceSlice(data, head, pos, 4, 8);
    if HEADER + PayloadLength(b) <= |b| {
      SliceSlice(data, head, pos, HEADER, HEADER + PayloadLength(b));
    }
  }

  method DispatchOne(reg: Registry, id: nat, payload: seq<Byte>) returns (ds: seq<Delivery>)
    ensures ds == RouteOne(reg.classes, reg.sinks, Record(id, payload))
  {
    ds := [];
    var name := NameOf(reg.classes, id);
    if name.Some? {
      var i := reg.MatchSink(name.value);
      FirstMatchUnique(reg.sinks, name.value, i);
      if i < |reg.sinks| {
        ds := [Delivery(i, id, name.value, payload)];
      }
    }
  }

  lemma RouteStep(classes: seq<string>, sinks: seq<Sink>, r: Record, rest: seq<Record>)
    ensures Route(classes, sinks, [r] + rest) == RouteOne(classes, sinks, r) + Route(classes, sinks, rest)
  {
    assert ([r] + rest)[1..] == rest;
  }

  /** Reading the record at pos. */
  lemma NextRecord(bytes: seq<Byte>, pos: nat)
    requires pos + HEADER <= |bytes| < U32 && WellFormed(bytes[pos..])
    ensures var b := bytes[pos..]; var n := PayloadLength(b);
            && Starts(b) && HEADER + n <= RecordBytes(n) <= |b| && WellFormed(bytes[pos + RecordBytes(n)..])
            && Parse(b) == [Record(FromLe32(b[..4]), b[HEADER..HEADER + n])] + Parse(bytes[pos + RecordBytes(n)..])
  {
    var b := bytes[pos..];
    var n := PayloadLength(b);
    RecordSize(n);
    assert b[RecordBytes(n)..] == bytes[pos + RecordBytes(n)..];
  }

  lemma LastRecord(bytes: seq<Byte>, pos: nat)
    requires pos <= |bytes| && WellFormed(bytes[pos..])
    ensures |bytes| - pos < HEADER ==> bytes[pos..] == [] && Parse(bytes[pos..]) == []
  {
  }

  lemma SliceRecord(bytes: seq<Byte>, head: nat, id: nat, payload: seq<Byte>)
    requires id < U32 && Small(head, |payload|) && head + RecordBytes(|payload|) <= |bytes|
    requires HEADER + |payload| <= RecordBytes(|payload|)
    requires bytes[head..head + HEADER] == Le32(id) + Le32(|payload|)
    requires bytes[head + HEADER..head + HEADER + |payload|] == payload
    ensures OneRecord(bytes[head..head + RecordBytes(|payload|)], id, payload)
  {
    hide Le32;
    var e := bytes[head..head + RecordBytes(|payload|)];
    var h := bytes[head..head + HEADER];
    assert |h| == 8 && e[..8] == h;
    assert e[..4] == h[..4] && e[4..8] == h[4..8];
    assert e[HEADER..HEADER + |payload|] == bytes[head + HEADER..head + HEADER + |payload|];
  }

  // ---- Whole sessions ----

  /** The emits a buffer accepts: of a real class, and while there is room. */
  function Accepted(size: nat, head: nat, ms: seq<Record>): (r: seq<Record>)
    ensures |r| <= |ms|
    decreases |ms|
  {
    if ms == [] then []
    else
      var m := ms[0];
      var next := head + HEADER + Align4(|m.payload|);
      if m.id != CLASS_NONE && next <= size then [m] + Accepted(size, next, ms[1..]) else Accepted(size, head, ms[1..])
  }

  /** No record size wraps around in 32 bits. */
  predicate NoWrap(size: nat, ms: seq<Record>) {
    forall i :: 0 <= i < |ms| ==> ms[i].id < U32 && Small(size, |ms[i].payload|)
  }

  /** A sequence of emits: what is accepted and what is dropped add up. */
  method EmitAll(buf: Buffer, ms: seq<Record>)
    requires buf.Valid() && NoWrap(buf.size, ms)
    modifies buf`head, buf`dropped, buf.data
    ensures buf.Valid() && buf.data == old(buf.data) && buf.size == old(buf.size)
    ensures buf.Records() == old(buf.Records()) + Accepted(buf.size, old(buf.head), ms)
    ensures buf.dropped == (old(buf.dropped) + |ms| - |Accepted(buf.size, old(buf.head), ms)|) % U32
  {
    hide Parse, WellFormed, Align4, Accepted, NoWrap, Balance;
    ghost var all := buf.Records() + Accepted(buf.size, buf.head, ms);
    ghost var total := Balance(buf.dropped, |ms| - |Accepted(buf.size, buf.head, ms)|);
    assert ms[0..] == ms;
    for i := 0 to |ms|
      modifies buf`head, buf`dropped, buf.data
      invariant buf.Valid() && buf.data == old(buf.data) && buf.size == old(buf.size)
      invariant buf.Records() + Accepted(buf.size, buf.head, ms[i..]) == all
      invariant Balance(buf.dropped, |ms[i..]| - |Accepted(buf.size, buf.head, ms[i..])|) == total
    {
      AcceptedStep(buf.size, buf.head, ms, i);
      NoWrapAt(buf.size, buf.head, ms, i);
      WrapStep(buf.dropped, |ms[i + 1..]| - |Accepted(buf.size, buf.head, ms[i + 1..])|);
      buf.Emit(ms[i].id, ms[i].payload);
    }
    AcceptedNone(buf.size, buf.head);
    BalanceEnds(buf.dropped);
    BalanceStarts(old(buf.dropped), |ms| - |Accepted(buf.size, old(buf.head), ms)|);
    assert buf.Records() + [] == buf.Records();
  }

  lemma BalanceEnds(d: nat)
    requires d < U32
    ensures Balance(d, 0) == d
  {
  }

  lemma BalanceStarts(d: nat, m: nat)
    ensures Balance(d, m) == (d + m) % U32
  {
  }

  lemma AcceptedNone(size: nat, head: nat)
    ensures Accepted(size, head, []) == []
  {
  }

  lemma NoWrapAt(size: nat, head: nat, ms: seq<Record>, i: nat)
    requires NoWrap(size, ms) && i < |ms| && head <= size
    ensures ms[i].id < U32 && Small(head, |ms[i].payload|)
  {
  }

  lemma WrapStep(d: nat, m: nat)
    ensures Balance((d + 1) % U32, m) == Balance(d, m + 1)
  {
  }

  /** A counter of 32 bits after m more steps. */
  function Balance(d: nat, m: nat): nat {
    (d + m) % U32
  }

  lemma AcceptedStep(size: nat, head: nat, ms: seq<Record>, i: nat)
    requires i < |ms|
    ensures var next := head + HEADER + Align4(|ms[i].payload|);
            Accepted(size, head, ms[i..]) ==
            if ms[i].id != CLASS_NONE && next <= size then [ms[i]] + Accepted(size, next, ms[i + 1..])
            else Accepted(size, head, ms[i + 1..])
  {
    assert ms[i..][0] == ms[i] && ms[i..][1..] == ms[i + 1..];
  }

  /** Emit, then drain: exactly the accepted records arrive, once each, in order, byte for byte. */
  method RoundTrip(buf: Buffer, reg: Registry, ms: seq<Record>) returns (ds: seq<Delivery>)
    requires buf.Valid() && buf.head == 0 && NoWrap(buf.size, ms) && reg.Valid()
    requires forall i :: 0 <= i < |ms| && ms[i].id != CLASS_NONE ==> Deliverable(reg.classes, reg.sinks, ms[i])
    modifies buf`head, buf`dropped, buf.data
    ensures buf.Valid() && buf.Records() == []
    ensures Arrived(reg.classes, reg.sinks, Accepted(buf.size, 0, ms), ds)
    ensures buf.dropped == (old(buf.dropped) + |ms| - |Accepted(buf.size, 0, ms)|) % U32
  {
    hide Parse, WellFormed, Deliverable, Arrived, Accepted, NoWrap, Route, Align4, NoDuplicates, Usable;
    assert buf.data[..buf.head] == [];
    EmptyParse();
    assert buf.Records() == [];
    EmitAll(buf, ms);
    ghost var rs := Accepted(buf.size, 0, ms);
    assert [] + rs == rs;
    AcceptedDelivered(reg.classes, reg.sinks, buf.size, ms);
    ds := Drain(buf, reg);
  }

  lemma AcceptedDelivered(classes: seq<string>, sinks: seq<Sink>, size: nat, ms: seq<Record>)
    requires forall i :: 0 <= i < |ms| && ms[i].id != CLASS_NONE ==> Deliverable(classes, sinks, ms[i])
    ensures Arrived(classes, sinks, Accepted(size, 0, ms), Route(classes, sinks, Accepted(size, 0, ms)))
  {
    hide Deliverable, FirstMatch, Accepted, Route;
    var rs := Accepted(size, 0, ms);
    AcceptedFrom(size, 0, ms);
    forall i | 0 <= i < |rs|
      ensures Deliverable(classes, sinks, rs[i])
    {
      assert rs[i] in rs;
      var j :| 0 <= j < |ms| && ms[j] == rs[i];
    }
    RouteDelivers(classes, sinks, rs);
  }

  lemma {:induction false} AcceptedFrom(size: nat, head: nat, ms: seq<Record>)
    ensures forall r :: r in Accepted(size, head, ms) ==> r in ms && r.id != CLASS_NONE
    decreases |ms|
  {
    if ms != [] {
      AcceptedFrom(size, head, ms[1..]);
      AcceptedFrom(size, head + HEADER + Align4(|ms[0].payload|), ms[1..]);
    }
  }
}
