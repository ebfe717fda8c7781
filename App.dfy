/**
  The fleet bookkeeping of App.java: the static task list built for sequence numbers
  1..devices, startDevices turning every device on before submitting its task, and the
  shutdown hook turning every device off before asking the executor to stop.

  The executor and the hook's thread are not modelled as concurrency: what App asks of
  them is recorded, in order, in a log of actions.
*/
module App {
  import opened Wrappers
  import opened DeviceTask

  /** What the unseen four-argument Device constructor sets for one device (its id and first reading), in the order the devices are built. */
  datatype Seed = Seed(id: string, value: real)

  /** Why main stops before it builds any task: newFixedThreadPool refuses a pool of fewer than one thread. */
  datatype LaunchError = IllegalArgumentException

  /** The calls App makes, by task position: onDevice, executor.submit, shutdownDevice, executor.shutdownNow. */
  datatype Action = TurnOn(task: nat) | Submit(task: nat) | TurnOff(task: nat) | ShutdownNow

  /** The calls startDevices makes for the first n tasks. */
  function StartLog(n: nat): (log: seq<Action>)
    ensures |log| == 2 * n
  {
    if n == 0 then [] else StartLog(n - 1) + [TurnOn(n - 1), Submit(n - 1)]
  }

  /** The shutdownDevice calls the hook makes for the first n tasks. */
  function StopLog(n: nat): (log: seq<Action>)
    ensures |log| == n
  {
    if n == 0 then [] else StopLog(n - 1) + [TurnOff(n - 1)]
  }

  /** Tasks are visited in list order, each turned on and then submitted. */
  lemma {:induction false} StartLogShape(n: nat)
    ensures forall k :: 0 <= k < 2 * n ==>
      StartLog(n)[k] == if k % 2 == 0 then TurnOn(k / 2) else Submit(k / 2)
  {
    if n > 0 {
      StartLogShape(n - 1);
      var log := StartLog(n);
      forall k | 0 <= k < 2 * n
        ensures log[k] == if k % 2 == 0 then TurnOn(k / 2) else Submit(k / 2)
      {
        if k < 2 * (n - 1) {
          assert log[k] == StartLog(n - 1)[k];
        }
      }
    }
  }

  /** Every task is submitted exactly once, right after its device was turned on. */
  lemma SubmittedOnceAfterTurnOn(n: nat, i: nat)
    requires i < n
    ensures StartLog(n)[2 * i] == TurnOn(i)
    ensures forall k :: 0 <= k < |StartLog(n)| ==> (StartLog(n)[k] == Submit(i) <==> k == 2 * i + 1)
  {
    StartLogShape(n);
  }

  /** The hook turns the tasks off in list order. */
  lemma {:induction false} StopLogShape(n: nat)
    ensures forall k :: 0 <= k < n ==> StopLog(n)[k] == TurnOff(k)
  {
    if n > 0 {
      StopLogShape(n - 1);
      assert forall k :: 0 <= k < n - 1 ==> StopLog(n)[k] == StopLog(n - 1)[k];
    }
  }

  class App {
    var tasks: seq<DeviceTask>
    var log: seq<Action>

    /** Every task drives its own device. */
    ghost predicate Valid()
      reads this
    {
      forall i, j :: 0 <= i < j < |tasks| ==> tasks[i].device != tasks[j].device
    }

    ghost function Devices(): set<LiveDevice>
      reads this
    {
      set t | t in tasks :: t.device
    }

    constructor ()
      ensures Valid() && tasks == [] && log == []
    {
      tasks := [];
      log := [];
    }

    /** initDeviceTasks: one task per sequence number 1..devices, each device built from the next seed. */
    method InitDeviceTasks(devices: int, seeds: seq<Seed>)
      requires Valid() && devices <= |seeds|
      modifies this
      ensures Valid()
      ensures |tasks| == |old(tasks)| + (if devices <= 0 then 0 else devices)
      ensures tasks[..|old(tasks)|] == old(tasks)
      ensures forall j :: |old(tasks)| <= j < |tasks| ==>
        && fresh(tasks[j]) && fresh(tasks[j].device)
        && tasks[j].device.sequence == j - |old(tasks)| + 1
        && tasks[j].device.id == seeds[j - |old(tasks)|].id
        && tasks[j].device.value == seeds[j - |old(tasks)|].value
        && !tasks[j].device.on
      ensures log == old(log)
    {
      var base := |tasks|;
      var i := 1;
      while i <= devices
        invariant 1 <= i <= if devices >= 1 then devices + 1 else 1
        invariant |tasks| == base + i - 1
        invariant tasks[..base] == old(tasks)
        invariant Valid()
        invariant forall j :: base <= j < |tasks| ==>
          && fresh(tasks[j]) && fresh(tasks[j].device)
          && tasks[j].device.sequence == j - base + 1
          && tasks[j].device.id == seeds[j - base].id
          && tasks[j].device.value == seeds[j - base].value
          && !tasks[j].device.on
        invariant log == old(log)
      {
        var device := new LiveDevice(i, seeds[i - 1].id, seeds[i - 1].value);
        var task := new DeviceTask(device);
        tasks := tasks + [task];
        i := i + 1;
      }
    }

    /** startDevices: in list order, turn the device on, then submit its task. */
    method StartDevices()
      requires Valid()
      modifies this, Devices()
      ensures Valid() && tasks == old(tasks)
      ensures forall j :: 0 <= j < |tasks| ==> tasks[j].device.on
      ensures forall j :: 0 <= j < |tasks| ==> tasks[j].device.value == old(tasks[j].device.value)
      ensures log == old(log) + StartLog(|tasks|)
    {
      var i := 0;
      while i < |tasks|
        invariant 0 <= i <= |tasks|
        invariant tasks == old(tasks)
        invariant forall j :: 0 <= j < i ==> tasks[j].device.on
        invariant forall j :: 0 <= j < |tasks| ==> tasks[j].device.value == old(tasks[j].device.value)
        invariant log == old(log) + StartLog(i)
      {
        tasks[i].OnDevice();
        log := log + [TurnOn(i)];
        log := log + [Submit(i)];
        i := i + 1;
      }
    }

    /** ShutdownHook.run: turn every device off, in list order, and only then call shutdownNow. */
    method ShutdownHookRun()
      requires Valid()
      modifies this, Devices()
      ensures Valid() && tasks == old(tasks)
      ensures forall j :: 0 <= j < |tasks| ==> !tasks[j].device.on
      ensures forall j :: 0 <= j < |tasks| ==> tasks[j].device.value == old(tasks[j].device.value)
      ensures log == old(log) + StopLog(|tasks|) + [ShutdownNow]
    {
      var i := 0;
      while i < |tasks|
        invariant 0 <= i <= |tasks|
        invariant tasks == old(tasks)
        invariant forall j :: 0 <= j < i ==> !tasks[j].device.on
        invariant forall j :: 0 <= j < |tasks| ==> tasks[j].device.value == old(tasks[j].device.value)
        invariant log == old(log) + StopLog(i)
      {
        tasks[i].ShutdownDevice();
        log := log + [TurnOff(i)];
        i := i + 1;
      }
      log := log + [ShutdownNow];
    }

    /**
      main after load: the thread pool is created first, and a count below one makes it throw
      before any task is built; otherwise the tasks are built, then started.
    */
    method Launch(devices: int, seeds: seq<Seed>) returns (r: Result<(), LaunchError>)
      requires Valid() && tasks == [] && devices <= |seeds|
      modifies this
      ensures Valid()
      ensures r.Failure? <==> devices < 1
      ensures r.Failure? ==> tasks == [] && log == old(log)
      ensures r.Success? ==> |tasks| == devices
      ensures forall j :: 0 <= j < |tasks| ==> tasks[j].device.on && tasks[j].device.sequence == j + 1
      ensures log == old(log) + StartLog(|tasks|)
    {
      if devices < 1 {
        return Failure(IllegalArgumentException);
      }
      InitDeviceTasks(devices, seeds);
      StartDevices();
      r := Success(());
    }

    /** Running the hook a second time leaves every device off, as the first run did, and keeps the tasks and their readings. */
    method ShutdownHookTwice()
      requires Valid()
      modifies this, Devices()
      ensures Valid() && tasks == old(tasks)
      ensures forall j :: 0 <= j < |tasks| ==> !tasks[j].device.on
      ensures forall j :: 0 <= j < |tasks| ==> tasks[j].device.value == old(tasks[j].device.value)
      ensures log == old(log) + StopLog(|tasks|) + [ShutdownNow] + StopLog(|tasks|) + [ShutdownNow]
    {
      ShutdownHookRun();
      ShutdownHookRun();
    }
  }
}
