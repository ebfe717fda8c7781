/**
  The discrete-event simulator of sangheon/simulator_factory_data.py: a fleet of devices,
  each with an exponential inter-event time, served earliest-first from a heapq priority
  queue of (next_ts, idx) pairs.

  Every draw of `random` and every reading of `time.time()` is a parameter. The heap is
  modelled by its semantics: a list whose pop removes the least pair in Python's tuple
  order (timestamp first, ties broken by index); its internal array layout is not.
*/
module FactorySimulator {
  import opened Wrappers
  import Decimal

  /** The dataclass Device: seq and value have the defaults 0 and 50.0. */
  datatype Device = Device(id: string, lam: real, seqNo: nat, value: real)

  const InitialValue: real := 50.0
  const MinLam: real := 0.1

  /** exp_interval(lam): `random.expovariate(lam)`, passed in as draw, when lam > 0; otherwise the fixed interval 1.0. */
  function ExpInterval(lam: real, draw: real): (r: real)
    ensures lam <= 0.0 ==> r == 1.0
    ensures lam > 0.0 ==> r == draw
    ensures draw > 0.0 ==> r > 0.0
  {
    if lam > 0.0 then draw else 1.0
  }

  /** step(x): x plus a draw u of `random.uniform(-0.5, 0.5)`; the walk moves by at most 0.5. */
  function Step(x: real, u: real): (r: real)
    requires -0.5 <= u <= 0.5
    ensures x - 0.5 <= r <= x + 0.5
    ensures r - x == u
  {
    x + u
  }

  /** f"dev-{i:04d}": the prefix "dev-", then at least four digits that read back as i. */
  function DevId(i: nat): (id: string)
    ensures |id| >= 8 && id[..4] == "dev-"
    ensures Decimal.AllDigits(id[4..]) && Decimal.Parse(id[4..]) == i
  {
    Decimal.ParseZeroPad(i, 4);
    "dev-" + Decimal.ZeroPad(i, 4)
  }

  lemma DevIdInjective(a: nat, b: nat)
    ensures DevId(a) == DevId(b) <==> a == b
  {
    if DevId(a) == DevId(b) {
      assert Decimal.ZeroPad(a, 4) == DevId(a)[4..] == DevId(b)[4..] == Decimal.ZeroPad(b, 4);
      Decimal.ZeroPadInjective(a, b, 4);
    }
  }

  /** Unlike the Java generator, this one counts from 0: the first id is dev-0000. */
  lemma FirstIdIsDev0000()
    ensures DevId(0) == "dev-0000"
  {
  }

  /** The device built at index i from the Gaussian draw g: `Device(id=f"dev-{i:04d}", lam=max(0.1, g))`. */
  function NewDevice(i: nat, g: real): (d: Device)
    ensures d.id == DevId(i) && d.seqNo == 0 && d.value == InitialValue
    ensures d.lam >= MinLam && d.lam >= g
    ensures g >= MinLam ==> d.lam == g
  {
    Device(DevId(i), if g >= MinLam then g else MinLam, 0, InitialValue)
  }

  /**
    gen_devices(n): n devices in index order; gauss[i] is the i-th `random.gauss(lam_mean, lam_std)`
    draw, clamped from below at 0.1.
  */
  method GenDevices(n: int, gauss: seq<real>) returns (devs: seq<Device>)
    requires n <= |gauss|
    ensures |devs| == if n <= 0 then 0 else n
    ensures forall i :: 0 <= i < |devs| ==> devs[i] == NewDevice(i, gauss[i])
    ensures forall i :: 0 <= i < |devs| ==>
      devs[i].lam >= MinLam && devs[i].seqNo == 0 && devs[i].value == InitialValue
    ensures forall i, j :: 0 <= i < j < |devs| ==> devs[i].id != devs[j].id
  {
    devs := [];
    var i := 0;
    while i < n
      invariant 0 <= i <= if n >= 0 then n else 0
      invariant |devs| == i
      invariant forall k :: 0 <= k < i ==> devs[k] == NewDevice(k, gauss[k])
    {
      var lam := if gauss[i] >= MinLam then gauss[i] else MinLam;
      devs := devs + [Device(DevId(i), lam, 0, InitialValue)];
      i := i + 1;
    }
    forall a, b | 0 <= a < b < |devs|
      ensures devs[a].id != devs[b].id
    {
      DevIdInjective(a, b);
    }
  }

  /** A queue entry (next_ts, idx). */
  datatype Entry = Entry(ts: real, idx: nat)

  /** Python's tuple order on (ts, idx). */
  predicate EntryLe(a: Entry, b: Entry) {
    a.ts < b.ts || (a.ts == b.ts && a.idx <= b.idx)
  }

  /** Two least entries are the same entry: the tuple order is total and antisymmetric, so heappop has one answer. */
  lemma LeastEntryUnique(q: seq<Entry>, a: Entry, b: Entry)
    requires a in q && b in q
    requires forall x :: x in q ==> EntryLe(a, x)
    requires forall x :: x in q ==> EntryLe(b, x)
    ensures a == b
  {
  }

  /** The number of entries of device i in q. */
  function Count(q: seq<Entry>, i: nat): nat {
    if q == [] then 0 else (if q[0].idx == i then 1 else 0) + Count(q[1..], i)
  }

  lemma {:induction false} CountAppend(a: seq<Entry>, b: seq<Entry>, i: nat)
    ensures Count(a + b, i) == Count(a, i) + Count(b, i)
    decreases |a|
  {
    if a == [] {
      assert a + b == b;
    } else {
      assert (a + b)[1..] == a[1..] + b;
      CountAppend(a[1..], b, i);
    }
  }

  lemma {:induction false} CountAbsent(q: seq<Entry>, i: nat)
    requires forall e :: e in q ==> e.idx != i
    ensures Count(q, i) == 0
    decreases |q|
  {
    if q != [] {
      CountAbsent(q[1..], i);
    }
  }

  /** heapq.heappop: remove and return the least entry; an empty queue raises IndexError. */
  method HeapPop(q: seq<Entry>) returns (r: Result<(Entry, seq<Entry>), StreamError>)
    ensures r.Failure? <==> q == []
    ensures r.Success? ==> var (e, rest) := r.value;
      && e in q
      && (forall x :: x in q ==> EntryLe(e, x))
      && multiset(rest) + multiset{e} == multiset(q)
      && (forall i: nat :: Count(rest, i) + (if e.idx == i then 1 else 0) == Count(q, i))
  {
    if q == [] {
      return Failure(IndexError);
    }
    var k := LeastIndex(q);
    var rest := q[..k] + q[k + 1..];
    assert q == q[..k] + [q[k]] + q[k + 1..];
    forall i: nat
      ensures Count(rest, i) + (if q[k].idx == i then 1 else 0) == Count(q, i)
    {
      CountAppend(q[..k], q[k + 1..], i);
      CountAppend(q[..k] + [q[k]], q[k + 1..], i);
      CountAppend(q[..k], [q[k]], i);
      assert Count([q[k]], i) == if q[k].idx == i then 1 else 0 by {
        assert [q[k]][1..] == [];
      }
    }
    r := Success((q[k], rest));
  }

  /** The position of the least entry, found by a scan. */
  method LeastIndex(q: seq<Entry>) returns (k: nat)
    requires q != []
    ensures k < |q|
    ensures forall x :: x in q ==> EntryLe(q[k], x)
  {
    k := 0;
    var i := 1;
    while i < |q|
      invariant 1 <= i <= |q| && k < i
      invariant forall j :: 0 <= j < i ==> EntryLe(q[k], q[j])
    {
      if !EntryLe(q[k], q[i]) {
        k := i;
      }
      i := i + 1;
    }
  }

  /** One event yielded by stream_events; ts is the `time.time()` reading at the yield. */
  datatype Event = Event(ts: real, deviceId: string, seqNo: nat, value: real)

  datatype StreamError = IndexError

  /** The loop of stream_events that pushes one entry per device at now + exp_interval(lam), in index order. */
  method FirstEntries(ds: seq<Device>, now: real, firsts: seq<real>) returns (heap: seq<Entry>)
    requires |ds| <= |firsts|
    ensures |heap| == |ds|
    ensures forall i :: 0 <= i < |ds| ==> heap[i] == Entry(now + ExpInterval(ds[i].lam, firsts[i]), i)
    ensures forall i :: 0 <= i < |ds| ==> Count(heap, i) == 1
    ensures forall e :: e in heap ==> e.idx < |ds|
  {
    heap := [];
    var idx := 0;
    while idx < |ds|
      invariant 0 <= idx <= |ds|
      invariant |heap| == idx
      invariant forall i :: 0 <= i < idx ==> heap[i] == Entry(now + ExpInterval(ds[i].lam, firsts[i]), i)
      invariant forall i :: 0 <= i < idx ==> Count(heap, i) == 1
      invariant forall e :: e in heap ==> e.idx < idx
    {
      var e := Entry(now + ExpInterval(ds[idx].lam, firsts[idx]), idx);
      CountPush(heap, e);
      CountAbsent(heap, idx);
      heap := heap + [e];
      idx := idx + 1;
    }
  }

  /** The entry pushed back for the served entry p: its own next_ts plus a fresh interval, not the wake-up time. */
  function Reschedule(p: Entry, devs: seq<Device>, interval: real): (e: Entry)
    requires p.idx < |devs|
    ensures e.idx == p.idx
    ensures ExpInterval(devs[p.idx].lam, interval) > 0.0 ==> e.ts > p.ts
  {
    Entry(p.ts + ExpInterval(devs[p.idx].lam, interval), p.idx)
  }

  /**
    The queue once the generator resumes and heappush puts the pending entry back: the old
    entries stay, and the pending device gains exactly one entry.
  */
  function Resumed(q: seq<Entry>, pending: Option<Entry>, devs: seq<Device>, interval: real): (r: seq<Entry>)
    requires pending.Some? ==> pending.value.idx < |devs|
    ensures |r| == |q| + (if pending.Some? then 1 else 0) && r[..|q|] == q
    ensures pending.Some? ==> r[|q|] == Reschedule(pending.value, devs, interval)
    ensures forall i: nat :: Count(r, i) == Count(q, i) + (if pending.Some? && pending.value.idx == i then 1 else 0)
  {
    if pending.Some? then
      var e := Reschedule(pending.value, devs, interval);
      CountPush(q, e);
      q + [e]
    else q
  }

  /** Pushing one entry adds one to its device's count and leaves the others alone. */
  lemma CountPush(q: seq<Entry>, e: Entry)
    ensures forall i: nat :: Count(q + [e], i) == Count(q, i) + (if e.idx == i then 1 else 0)
  {
    forall i: nat
      ensures Count(q + [e], i) == Count(q, i) + (if e.idx == i then 1 else 0)
    {
      CountAppend(q, [e], i);
      assert [e][1..] == [];
    }
  }

  /** The device after it is served: seq bumped by one and its value walked by u. */
  function Served(d: Device, u: real): (s: Device)
    requires -0.5 <= u <= 0.5
    ensures s.id == d.id && s.lam == d.lam && s.seqNo == d.seqNo + 1
  {
    d.(seqNo := d.seqNo + 1, value := Step(d.value, u))
  }

  /**
    The state of the stream_events generator between two events: the devices, the queue,
    and the entry served by the last event, which is pushed back (with a fresh interval)
    only when the generator is resumed.
  */
  class EventStream {
    var devs: seq<Device>
    var q: seq<Entry>
    var pending: Option<Entry>

    /** Exactly one entry per device, counting the one waiting to be pushed back; none in the queue is earlier than the pending one. */
    ghost predicate Valid()
      reads this
    {
      && (forall e :: e in q ==> e.idx < |devs|)
      && (forall i :: 0 <= i < |devs| ==> Count(q, i) + PendingCount(i) == 1)
      && (pending.Some? ==> pending.value.idx < |devs| && forall e :: e in q ==> pending.value.ts <= e.ts)
    }

    ghost function PendingCount(i: nat): nat
      reads this
    {
      if pending.Some? && pending.value.idx == i then 1 else 0
    }

    /**
      stream_events up to its `while True`: generate the devices, then push one entry
      per device at now + exp_interval(lam), in index order.
    */
    constructor (n: int, gauss: seq<real>, now: real, firsts: seq<real>)
      requires n <= |gauss| && n <= |firsts|
      ensures Valid() && pending == None
      ensures |devs| == (if n <= 0 then 0 else n)
      ensures forall i :: 0 <= i < |devs| ==> devs[i] == NewDevice(i, gauss[i])
      ensures |q| == |devs|
      ensures forall i :: 0 <= i < |q| ==> q[i] == Entry(now + ExpInterval(devs[i].lam, firsts[i]), i)
    {
      var ds := GenDevices(n, gauss);
      var heap := FirstEntries(ds, now, firsts);
      devs := ds;
      q := heap;
      pending := None;
    }

    /**
      One resumption of the generator up to its next yield: push back the entry served
      last time (interval is the new `expovariate` draw), pop the least entry, bump that
      device's seq, walk its value by u and yield the event, clock being the `time.time()`
      reading. With no devices, heappop raises IndexError.
    */
    method Next(interval: real, u: real, clock: real) returns (r: Result<Event, StreamError>)
      requires Valid() && -0.5 <= u <= 0.5
      modifies this
      ensures Valid()
      ensures r.Failure? <==> |old(devs)| == 0
      ensures r.Failure? ==> devs == old(devs) && q == old(q) && pending == old(pending)
      ensures r.Success? ==>
        var q1 := Resumed(old(q), old(pending), old(devs), interval);
        && (forall i :: 0 <= i < |old(devs)| ==> Count(q1, i) == 1)
        && pending.Some?
        && pending.value in q1
        && (forall x :: x in q1 ==> EntryLe(pending.value, x))
        && multiset(q) + multiset{pending.value} == multiset(q1)
        && pending.value.idx < |old(devs)|
        && devs == old(devs)[pending.value.idx := Served(old(devs)[pending.value.idx], u)]
        && r.value == Event(clock, devs[pending.value.idx].id, devs[pending.value.idx].seqNo, devs[pending.value.idx].value)
      ensures r.Success? && old(pending).Some? && ExpInterval(old(devs)[old(pending).value.idx].lam, interval) >= 0.0 ==>
        pending.value.ts >= old(pending).value.ts
    {
      var q1 := Resumed(q, pending, devs, interval);
      assert |devs| > 0 ==> Count(q1, 0) == 1;
      var popped := HeapPop(q1);
      if popped.Failure? {
        return Failure(popped.error);
      }
      var (e, rest) := popped.value;
      forall x | x in rest
        ensures x in q1 && x.idx < |devs| && e.ts <= x.ts
      {
        assert x in multiset(rest);
        assert x in multiset(q1);
      }
      var d := devs[e.idx];
      devs := devs[e.idx := Served(d, u)];
      q := rest;
      pending := Some(e);
      r := Success(Event(clock, devs[e.idx].id, devs[e.idx].seqNo, devs[e.idx].value));
    }
  }
}
