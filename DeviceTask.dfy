/**
  DeviceTask.run as a state machine. The loop tests "device on and thread not interrupted",
  sleeps for the device's next interval, then calls generateValue and sends a DATA record;
  an interrupted sleep re-asserts the interrupt flag and leaves the loop; any other exception
  leaves the loop too, and in every case the finally block sends exactly one SHUTDOWN record.

  Nothing here runs threads. What another thread does is an oracle: for every iteration,
  an Observation says what the loop test read (the on flag and the interrupt status),
  whether the sleep was interrupted, which reading generateValue produced, and whether an
  exception the catch block does not handle was thrown.
*/
module DeviceTask {
  import opened SendType

  /**
    The stateful device that DeviceTask and App drive. Its class body is not part of this
    model: only its id, its on flag and its current reading are, and generateValue's new
    reading comes from the oracle.
  */
  class LiveDevice {
    const sequence: int
    const id: string
    var on: bool
    var value: real

    constructor (sequence: int, id: string, value: real)
      ensures this.sequence == sequence && this.id == id && this.value == value && !on
    {
      this.sequence := sequence;
      this.id := id;
      this.value := value;
      on := false;
    }
  }

  /** One line printed by send: the device id, the record kind and the device's value (the timestamp is the wall clock, not modelled). */
  datatype Record = Record(deviceId: string, kind: SendType, value: real)

  /** An exception other than InterruptedException, which the catch block lets through. */
  datatype Fault =
    | NoFault
    | SleepFault      // from nextIntervalMinutes, or from Thread.sleep given a negative interval
    | GenerateFault   // from generateValue, after a completed sleep

  /** What one loop iteration observes from the rest of the system. */
  datatype Observation = Observation(on: bool, interrupted: bool, sleepInterrupted: bool, generated: real, fault: Fault)

  /** The observable steps of run, in the order they happen. */
  datatype Step =
    | Test(passed: bool)         // the while condition
    | Sleep(interrupted: bool)   // Thread.sleep, ended normally or by InterruptedException
    | Reinterrupt                // Thread.currentThread().interrupt() in the catch block
    | Generate(value: real)      // device.generateValue(), with the reading it produced
    | Send(record: Record)       // send(...)
    | Raise                      // an unhandled exception leaves the loop; it propagates after finally

  predicate Passes(o: Observation) {
    o.on && !o.interrupted
  }

  /** The iteration leaves the loop: the test fails, the sleep is interrupted, or an exception escapes. */
  predicate Exits(o: Observation) {
    !Passes(o) || o.sleepInterrupted || o.fault != NoFault
  }

  /** The sleep completed and then generateValue threw. */
  predicate GenerateFails(o: Observation) {
    Passes(o) && o.fault == GenerateFault && !o.sleepInterrupted
  }

  /** The iteration leaves the loop by an exception that run does not catch. */
  predicate Raises(o: Observation) {
    Passes(o) && (o.fault == SleepFault || GenerateFails(o))
  }

  /** The oracle reaches an iteration that leaves the loop. */
  predicate Stops(obs: seq<Observation>)
    decreases |obs|
  {
    |obs| > 0 && (Exits(obs[0]) || Stops(obs[1..]))
  }

  /** The index of the iteration that leaves the loop: every earlier one completed its sleep. */
  function ExitIteration(obs: seq<Observation>): (e: nat)
    requires Stops(obs)
    ensures e < |obs| && Exits(obs[e])
    ensures forall j :: 0 <= j < e ==> !Exits(obs[j])
    decreases |obs|
  {
    if Exits(obs[0]) then 0 else 1 + ExitIteration(obs[1..])
  }

  /**
    The steps of an iteration that leaves the loop, before the SHUTDOWN of the finally block.
    The exception thrown by nextIntervalMinutes or sleep is checked before the sleep's
    interruption, since such a sleep never starts.
  */
  function ExitSteps(o: Observation): seq<Step>
    requires Exits(o)
  {
    if !Passes(o) then [Test(false)]
    else if o.fault == SleepFault then [Test(true), Raise]
    else if o.sleepInterrupted then [Test(true), Sleep(true), Reinterrupt]
    else [Test(true), Sleep(false), Raise]
  }

  /** The steps of run, starting from reading v: the reference definition the loop is proved against. */
  function RunSteps(id: string, v: real, obs: seq<Observation>): seq<Step>
    requires Stops(obs)
    decreases |obs|
  {
    var o := obs[0];
    if Exits(o) then
      ExitSteps(o) + [Send(Record(id, SHUTDOWN, v))]
    else
      [Test(true), Sleep(false), Generate(o.generated), Send(Record(id, DATA, o.generated))]
      + RunSteps(id, o.generated, obs[1..])
  }

  /** The device's reading when run leaves the loop. */
  function FinalValue(v: real, obs: seq<Observation>): real
    requires Stops(obs)
    decreases |obs|
  {
    if Exits(obs[0]) then v else FinalValue(obs[0].generated, obs[1..])
  }

  /** The records a sequence of steps sends, in order. */
  function Sent(steps: seq<Step>): seq<Record> {
    if steps == [] then []
    else (if steps[0].Send? then [steps[0].record] else []) + Sent(steps[1..])
  }

  function CompletedSleeps(steps: seq<Step>): nat {
    if steps == [] then 0
    else (if steps[0] == Sleep(false) then 1 else 0) + CompletedSleeps(steps[1..])
  }

  function CountKind(records: seq<Record>, kind: SendType): nat {
    if records == [] then 0
    else (if records[0].kind == kind then 1 else 0) + CountKind(records[1..], kind)
  }

  class DeviceTask {
    const device: LiveDevice

    constructor (device: LiveDevice)
      ensures this.device == device
    {
      this.device := device;
    }

    /** onDevice: switches the device on and changes nothing else. */
    method OnDevice()
      modifies device`on
      ensures device.on
      ensures device.value == old(device.value)
    {
      device.on := true;
    }

    /** shutdownDevice: switches the device off and changes nothing else. */
    method ShutdownDevice()
      modifies device`on
      ensures !device.on
      ensures device.value == old(device.value)
    {
      device.on := false;
    }

    /**
      run(). The Java loop `while (cond) { try { sleep } catch { interrupt(); break; } ... }`
      is written with its test inside the body, so that the failing test is logged. An
      exception the catch does not handle leaves the loop as a Raise step; the finally block
      still sends SHUTDOWN, after which Java rethrows and the log ends.
    */
    method Run(obs: seq<Observation>) returns (log: seq<Step>)
      requires Stops(obs)
      modifies device`value
      ensures log == RunSteps(device.id, old(device.value), obs)
      ensures device.value == FinalValue(old(device.value), obs)
    {
      ghost var v0 := device.value;
      ghost var id := device.id;
      log := [];
      var i := 0;
      while true
        invariant 0 <= i < |obs| && Stops(obs[i..])
        invariant log + RunSteps(id, device.value, obs[i..]) == RunSteps(id, v0, obs)
        invariant FinalValue(device.value, obs[i..]) == FinalValue(v0, obs)
        decreases |obs| - i
      {
        var o := obs[i];
        if !(o.on && !o.interrupted) {
          RunStepsExits(id, device.value, obs[i..]);
          assert [Test(false)] == ExitSteps(o);
          AppendAssoc(log, [Test(false)], [Send(Record(id, SHUTDOWN, device.value))]);
          log := log + [Test(false)];
          break;
        }
        if o.fault == SleepFault {
          RunStepsExits(id, device.value, obs[i..]);
          assert [Test(true), Raise] == ExitSteps(o);
          AppendAssoc(log, [Test(true), Raise], [Send(Record(id, SHUTDOWN, device.value))]);
          log := log + [Test(true), Raise];
          break;
        }
        if o.sleepInterrupted {
          RunStepsExits(id, device.value, obs[i..]);
          assert [Test(true), Sleep(true), Reinterrupt] == ExitSteps(o);
          AppendAssoc(log, [Test(true), Sleep(true), Reinterrupt], [Send(Record(id, SHUTDOWN, device.value))]);
          log := log + [Test(true), Sleep(true), Reinterrupt];
          break;
        }
        if o.fault == GenerateFault {
          RunStepsExits(id, device.value, obs[i..]);
          assert [Test(true), Sleep(false), Raise] == ExitSteps(o);
          AppendAssoc(log, [Test(true), Sleep(false), Raise], [Send(Record(id, SHUTDOWN, device.value))]);
          log := log + [Test(true), Sleep(false), Raise];
          break;
        }
        RunStepsContinues(id, device.value, obs[i..]);
        assert obs[i..][1..] == obs[i + 1..];
        var chunk := [Test(true), Sleep(false), Generate(o.generated), Send(Record(device.id, DATA, o.generated))];
        AppendAssoc(log, chunk, RunSteps(id, o.generated, obs[i + 1..]));
        device.value := o.generated;
        log := log + chunk;
        i := i + 1;
      }
      log := log + [Send(Record(device.id, SHUTDOWN, device.value))];
    }
  }

  lemma AppendAssoc<T>(a: seq<T>, b: seq<T>, c: seq<T>)
    ensures (a + b) + c == a + (b + c)
  {
  }

  /** An iteration that leaves the loop ends the steps with the one SHUTDOWN record, carrying the current reading. */
  lemma RunStepsExits(id: string, v: real, obs: seq<Observation>)
    requires Stops(obs) && Exits(obs[0])
    ensures RunSteps(id, v, obs) == ExitSteps(obs[0]) + [Send(Record(id, SHUTDOWN, v))]
    ensures FinalValue(v, obs) == v
  {
  }

  /** An iteration whose sleep completes sends one DATA record and continues from the new reading. */
  lemma RunStepsContinues(id: string, v: real, obs: seq<Observation>)
    requires Stops(obs) && !Exits(obs[0])
    ensures Stops(obs[1..])
    ensures RunSteps(id, v, obs) ==
      [Test(true), Sleep(false), Generate(obs[0].generated), Send(Record(id, DATA, obs[0].generated))]
      + RunSteps(id, obs[0].generated, obs[1..])
    ensures FinalValue(v, obs) == FinalValue(obs[0].generated, obs[1..])
  {
  }

  lemma SentCons(x: Step, r: seq<Step>)
    ensures Sent([x] + r) == (if x.Send? then [x.record] else []) + Sent(r)
  {
    assert ([x] + r)[1..] == r;
  }

  lemma CompletedSleepsCons(x: Step, r: seq<Step>)
    ensures CompletedSleeps([x] + r) == (if x == Sleep(false) then 1 else 0) + CompletedSleeps(r)
  {
    assert ([x] + r)[1..] == r;
  }

  lemma {:induction false} SentAppend(a: seq<Step>, b: seq<Step>)
    ensures Sent(a + b) == Sent(a) + Sent(b)
    decreases |a|
  {
    if a == [] {
      assert a + b == b;
    } else {
      assert a + b == [a[0]] + (a[1..] + b);
      assert a == [a[0]] + a[1..];
      SentCons(a[0], a[1..] + b);
      SentCons(a[0], a[1..]);
      SentAppend(a[1..], b);
    }
  }

  lemma {:induction false} CountKindAppend(a: seq<Record>, b: seq<Record>, kind: SendType)
    ensures CountKind(a + b, kind) == CountKind(a, kind) + CountKind(b, kind)
    decreases |a|
  {
    if a == [] {
      assert a + b == b;
    } else {
      assert (a + b)[1..] == a[1..] + b;
      assert (a + b)[0] == a[0];
      CountKindAppend(a[1..], b, kind);
    }
  }

  /** The steps of one iteration that completes its sleep, followed by the rest of the run. */
  lemma CompletedIteration(id: string, v: real, obs: seq<Observation>)
    requires Stops(obs) && !Exits(obs[0])
    ensures var g := obs[0].generated;
      && RunSteps(id, v, obs)
         == [Test(true), Sleep(false), Generate(g), Send(Record(id, DATA, g))] + RunSteps(id, g, obs[1..])
      && Sent(RunSteps(id, v, obs)) == [Record(id, DATA, g)] + Sent(RunSteps(id, g, obs[1..]))
      && CompletedSleeps(RunSteps(id, v, obs)) == 1 + CompletedSleeps(RunSteps(id, g, obs[1..]))
  {
    var g := obs[0].generated;
    var rest := RunSteps(id, g, obs[1..]);
    var d := Send(Record(id, DATA, g));
    assert RunSteps(id, v, obs) == [Test(true)] + ([Sleep(false)] + ([Generate(g)] + ([d] + rest)));
    SentCons(d, rest);
    SentCons(Generate(g), [d] + rest);
    SentCons(Sleep(false), [Generate(g)] + ([d] + rest));
    SentCons(Test(true), [Sleep(false)] + ([Generate(g)] + ([d] + rest)));
    CompletedSleepsCons(d, rest);
    CompletedSleepsCons(Generate(g), [d] + rest);
    CompletedSleepsCons(Sleep(false), [Generate(g)] + ([d] + rest));
    CompletedSleepsCons(Test(true), [Sleep(false)] + ([Generate(g)] + ([d] + rest)));
  }

  /** The steps of an iteration that leaves the loop: one SHUTDOWN, and a completed sleep only when generateValue threw. */
  lemma ExitingIteration(id: string, v: real, obs: seq<Observation>)
    requires Stops(obs) && Exits(obs[0])
    ensures Sent(RunSteps(id, v, obs)) == [Record(id, SHUTDOWN, v)]
    ensures CompletedSleeps(RunSteps(id, v, obs)) == (if GenerateFails(obs[0]) then 1 else 0)
  {
    var o := obs[0];
    var sd := Send(Record(id, SHUTDOWN, v));
    SentCons(sd, []);
    CompletedSleepsCons(sd, []);
    if !Passes(o) {
      assert RunSteps(id, v, obs) == [Test(false)] + [sd];
      SentCons(Test(false), [sd]);
      CompletedSleepsCons(Test(false), [sd]);
    } else if o.fault == SleepFault {
      assert RunSteps(id, v, obs) == [Test(true)] + ([Raise] + [sd]);
      SentCons(Raise, [sd]);
      SentCons(Test(true), [Raise] + [sd]);
      CompletedSleepsCons(Raise, [sd]);
      CompletedSleepsCons(Test(true), [Raise] + [sd]);
    } else {
      var mid := if o.sleepInterrupted then Reinterrupt else Raise;
      assert RunSteps(id, v, obs) == [Test(true)] + ([Sleep(!GenerateFails(o))] + ([mid] + [sd]));
      SentCons(mid, [sd]);
      SentCons(Sleep(!GenerateFails(o)), [mid] + [sd]);
      SentCons(Test(true), [Sleep(!GenerateFails(o))] + ([mid] + [sd]));
      CompletedSleepsCons(mid, [sd]);
      CompletedSleepsCons(Sleep(!GenerateFails(o)), [mid] + [sd]);
      CompletedSleepsCons(Test(true), [Sleep(!GenerateFails(o))] + ([mid] + [sd]));
    }
  }

  /**
    The records of a run have the form DATA* SHUTDOWN: one DATA per completed iteration,
    carrying the reading generateValue produced, then the single SHUTDOWN, last, carrying
    the final reading.
  */
  lemma {:induction false} RunRecords(id: string, v: real, obs: seq<Observation>)
    requires Stops(obs)
    ensures var t := Sent(RunSteps(id, v, obs));
      && |t| == ExitIteration(obs) + 1
      && (forall j :: 0 <= j < |t| - 1 ==> t[j] == Record(id, DATA, obs[j].generated))
      && t[|t| - 1] == Record(id, SHUTDOWN, FinalValue(v, obs))
      && (forall j :: 0 <= j < |t| ==> (t[j].kind == SHUTDOWN <==> j == |t| - 1))
    decreases |obs|
  {
    var o := obs[0];
    if Exits(o) {
      ExitingIteration(id, v, obs);
    } else {
      CompletedIteration(id, v, obs);
      RunRecords(id, o.generated, obs[1..]);
      var t := Sent(RunSteps(id, v, obs));
      var rest := Sent(RunSteps(id, o.generated, obs[1..]));
      forall j | 1 <= j < |t| - 1
        ensures t[j] == Record(id, DATA, obs[j].generated)
      {
        assert t[j] == rest[j - 1];
        assert obs[1..][j - 1] == obs[j];
      }
    }
  }

  /** Exactly one SHUTDOWN is sent, and every other record is DATA. */
  lemma ShutdownSentOnce(id: string, v: real, obs: seq<Observation>)
    requires Stops(obs)
    ensures CountKind(Sent(RunSteps(id, v, obs)), SHUTDOWN) == 1
    ensures CountKind(Sent(RunSteps(id, v, obs)), DATA) == ExitIteration(obs)
  {
    RunRecords(id, v, obs);
    var t := Sent(RunSteps(id, v, obs));
    var datas := t[..|t| - 1];
    assert t == datas + [t[|t| - 1]];
    CountKindAppend(datas, [t[|t| - 1]], SHUTDOWN);
    CountKindAppend(datas, [t[|t| - 1]], DATA);
    AllDataCount(datas);
  }

  lemma {:induction false} AllDataCount(records: seq<Record>)
    requires forall j :: 0 <= j < |records| ==> records[j].kind == DATA
    ensures CountKind(records, SHUTDOWN) == 0
    ensures CountKind(records, DATA) == |records|
    decreases |records|
  {
    if records != [] {
      AllDataCount(records[1..]);
    }
  }

  /**
    There are as many DATA records as sleeps that completed without interruption, except
    for a final sleep after which generateValue threw.
  */
  lemma {:induction false} DataMatchesCompletedSleeps(id: string, v: real, obs: seq<Observation>)
    requires Stops(obs)
    ensures CompletedSleeps(RunSteps(id, v, obs))
            == ExitIteration(obs) + (if GenerateFails(obs[ExitIteration(obs)]) then 1 else 0)
    ensures CountKind(Sent(RunSteps(id, v, obs)), DATA)
            + (if GenerateFails(obs[ExitIteration(obs)]) then 1 else 0)
            == CompletedSleeps(RunSteps(id, v, obs))
    decreases |obs|
  {
    ShutdownSentOnce(id, v, obs);
    if Exits(obs[0]) {
      ExitingIteration(id, v, obs);
    } else {
      CompletedIteration(id, v, obs);
      DataMatchesCompletedSleeps(id, obs[0].generated, obs[1..]);
      assert obs[1..][ExitIteration(obs[1..])] == obs[ExitIteration(obs)];
    }
  }

  /**
    What must surround a sleep at position i: the passing loop test just before it; after a
    completed sleep, generateValue and then its DATA, or else the exception generateValue
    threw and the SHUTDOWN carrying the final reading; after an interrupted one, the
    interrupt re-assertion and that SHUTDOWN, and nothing else.
  */
  predicate SleepInOrder(s: seq<Step>, i: int, id: string, final: real)
    requires 0 <= i < |s| && s[i].Sleep?
  {
    && i >= 1 && s[i - 1] == Test(true)
    && (!s[i].interrupted ==>
          || (i + 2 < |s| && s[i + 1].Generate? && s[i + 2] == Send(Record(id, DATA, s[i + 1].value)))
          || (i + 3 == |s| && s[i + 1] == Raise && s[i + 2] == Send(Record(id, SHUTDOWN, final))))
    && (s[i].interrupted ==>
          i + 3 == |s| && s[i + 1] == Reinterrupt && s[i + 2] == Send(Record(id, SHUTDOWN, final)))
  }

  predicate SleepsInOrder(s: seq<Step>, id: string, final: real) {
    forall i :: 0 <= i < |s| && s[i].Sleep? ==> SleepInOrder(s, i, id, final)
  }

  lemma ShiftSleepInOrder(head: seq<Step>, rest: seq<Step>, i: int, id: string, final: real)
    requires 0 <= i < |rest| && rest[i].Sleep? && SleepInOrder(rest, i, id, final)
    ensures (head + rest)[|head| + i] == rest[i]
    ensures SleepInOrder(head + rest, |head| + i, id, final)
  {
    var s := head + rest;
    var k := |head| + i;
    assert s[k - 1] == rest[i - 1];
    if k + 1 < |s| { assert s[k + 1] == rest[i + 1]; }
    if k + 2 < |s| { assert s[k + 2] == rest[i + 2]; }
  }

  /** The order of steps within a run: see SleepInOrder. */
  lemma {:induction false} RunStepOrder(id: string, v: real, obs: seq<Observation>)
    requires Stops(obs)
    ensures SleepsInOrder(RunSteps(id, v, obs), id, FinalValue(v, obs))
    decreases |obs|
  {
    var o := obs[0];
    var s := RunSteps(id, v, obs);
    var final := FinalValue(v, obs);
    if Exits(o) {
      RunStepsExits(id, v, obs);
      if Passes(o) && o.fault != SleepFault {
        assert SleepInOrder(s, 1, id, final);
      }
    } else {
      var g := o.generated;
      var head := [Test(true), Sleep(false), Generate(g), Send(Record(id, DATA, g))];
      var rest := RunSteps(id, g, obs[1..]);
      CompletedIteration(id, v, obs);
      assert s == head + rest;
      RunStepOrder(id, g, obs[1..]);
      assert final == FinalValue(g, obs[1..]);
      forall i | 0 <= i < |s| && s[i].Sleep?
        ensures SleepInOrder(s, i, id, final)
      {
        if i < 4 {
          assert i == 1;
        } else {
          ShiftSleepInOrder(head, rest, i - 4, id, final);
        }
      }
    }
  }

  /**
    An exception that the catch block does not handle: the run raises exactly when the
    iteration that leaves the loop throws one, and the Raise is followed by the SHUTDOWN of
    the finally block, carrying the final reading, and by nothing else.
  */
  lemma {:induction false} RaiseThenShutdown(id: string, v: real, obs: seq<Observation>)
    requires Stops(obs)
    ensures var s := RunSteps(id, v, obs);
      && (Raise in s <==> Raises(obs[ExitIteration(obs)]))
      && (forall j :: 0 <= j < |s| && s[j] == Raise ==>
            j == |s| - 2 && s[j + 1] == Send(Record(id, SHUTDOWN, FinalValue(v, obs))))
    decreases |obs|
  {
    var o := obs[0];
    var s := RunSteps(id, v, obs);
    if Exits(o) {
      RunStepsExits(id, v, obs);
    } else {
      var g := o.generated;
      var head := [Test(true), Sleep(false), Generate(g), Send(Record(id, DATA, g))];
      var rest := RunSteps(id, g, obs[1..]);
      RunStepsContinues(id, v, obs);
      RaiseThenShutdown(id, g, obs[1..]);
      assert obs[1..][ExitIteration(obs[1..])] == obs[ExitIteration(obs)];
      assert s == head + rest;
      assert Raise !in head;
      forall j | 0 <= j < |s| && s[j] == Raise
        ensures j == |s| - 2 && s[j + 1] == Send(Record(id, SHUTDOWN, FinalValue(v, obs)))
      {
        assert j >= 4;
        assert s[j] == rest[j - 4];
        assert s[j + 1] == rest[j - 3];
      }
    }
  }

  /** Device off or thread interrupted at entry: the only record is the SHUTDOWN. */
  lemma StoppedAtEntry(id: string, v: real, obs: seq<Observation>)
    requires Stops(obs) && !Passes(obs[0])
    ensures Sent(RunSteps(id, v, obs)) == [Record(id, SHUTDOWN, v)]
  {
    ExitingIteration(id, v, obs);
  }

  /**
    shutdownDevice during a sleep that is not interrupted: the loop does not look at the
    flag again before generateValue, so one more DATA is sent before the SHUTDOWN.
  */
  lemma DataAfterShutdownDuringSleep(id: string, v: real, g: real, later: seq<Observation>)
    requires |later| > 0 && !later[0].on
    ensures Stops([Observation(true, false, false, g, NoFault)] + later)
    ensures Sent(RunSteps(id, v, [Observation(true, false, false, g, NoFault)] + later))
            == [Record(id, DATA, g), Record(id, SHUTDOWN, g)]
  {
    var obs := [Observation(true, false, false, g, NoFault)] + later;
    assert obs[1..] == later;
    CompletedIteration(id, v, obs);
    ExitingIteration(id, g, later);
  }
}
