# IoT device simulators and category recommender: a Dafny model

This project models the sequential logic inside a small telemetry-simulation repository and proves properties of that model. It covers three programs.

- **Java device client** (`wansu/client/app`):
  - `App` builds one `DeviceTask` per device and turns every device on before it submits the task to a thread pool. A shutdown hook turns every device off and then interrupts the pool.
  - Each `DeviceTask.run` loops while its device is on and its thread is not interrupted. Each iteration sleeps, generates a reading and sends a DATA record. A `finally` block sends one SHUTDOWN record.
  - `DeviceGenerator` builds devices with ids `dev-0001…` and a rate clamped at 0.1. It also samples Poisson counts by Knuth's multiplication loop.
  - `Device` and `SendType` are an immutable record and a two-constant enum.
- **Python factory simulator** (`sangheon/simulator_factory_data.py`):
  - `stream_events` is a discrete-event scheduler. A `heapq` of `(next_ts, idx)` pairs holds one entry per device.
  - Each step serves the earliest entry, bumps that device's `seq`, walks its value, and pushes the device back at `next_ts` plus a fresh exponential interval.
- **Python category recommender** (`category_recommender_e5_faiss.py`):
  - `label_text` and `build_query` build the strings that get embedded.
  - `recommend` maps the integer ids FAISS returns back to categories, through `str(id)` and a lookup by code in the `CATEGORIES` table.

Randomness, clocks, sleeping and interrupts become explicit inputs:
- random draws are parameters or sequences;
- `time.time()` readings are parameters;
- what another thread did to a device is a per-iteration observation.

Modules:
- `Wrappers`: Option and Result.
- `Decimal`: `str(n)`, `%04d` and `int(s)`, with their round trips.
- `SendType`, `Device`: the two Java value types.
- `DeviceGenerator`, `PoissonSampler`: `DeviceGenerator.java`. `samplePoisson` is its own module because `Device.generateEvents` calls it while `genDevices` builds Devices.
- `DeviceTask`, `App`: the run loop and the fleet bookkeeping.
- `FactorySimulator`: the Python scheduler.
- `CategoryRecommender`, `CategoryTable`: the recommender's string builders and lookup, and its 20-entry table.

Where the code and its documentation differ, the model follows the code:
- `genDevices` adds `lamStd` rather than multiplying by it (see Findings).
- The Java ids start at `dev-0001`, although the comment shows `dev-0000`.
- The Python ids start at `dev-0000`, and Python devices start with value 50.0.

## Model

| member | source | states |
|---|---|---|
| SendType.FromType | wansu/client/app/src/main/java/client/SendType.java:4-5 | a type string maps back to the constant that carries it, and to nothing when no constant carries it |
| SendType.SendType.GetType | wansu/client/app/src/main/java/client/SendType.java:16-18 | getType() is "DATA" for DATA and "SHUTDOWN" for SHUTDOWN, and no other string |
| SendType.SendType.GetDesc | wansu/client/app/src/main/java/client/SendType.java:20-22 | getDesc() is "데이터 전송" exactly for DATA and otherwise "디바이스 셧다운", never the constant's type string |
| SendType.TypeRoundTrip | wansu/client/app/src/main/java/client/SendType.java:16-18 | reading a constant's getType() string back gives that constant |
| SendType.TypesDistinct | wansu/client/app/src/main/java/client/SendType.java:4-5 | DATA has type "DATA" and SHUTDOWN has "SHUTDOWN"; each description is the one in its declaration; the two types and the two descriptions differ |
| SendType.ExactlyTwoConstants | wansu/client/app/src/main/java/client/SendType.java:3-6 | every SendType is DATA or SHUTDOWN |
| Device.GettersReturnConstructorArguments | wansu/client/app/src/main/java/client/Device.java:9-20 | getId and getLam return exactly the id and lam given to the constructor |
| Device.Device.GenerateEvents | wansu/client/app/src/main/java/client/Device.java:23-25 | generateEvents returns samplePoisson's result: non-negative, and one less than the number of draws at which the product first reaches L |
| Device.Device.ToString | wansu/client/app/src/main/java/client/Device.java:28-30 | toString is `Device{id='`, the id, `', lam=`, the rendered lam and `}`, each piece at its position |
| Device.ToStringDeterminesId | wansu/client/app/src/main/java/client/Device.java:29 | two devices whose toString texts are equal (same lam text) have the same id |
| PoissonSampler.SamplePoisson | wansu/client/app/src/main/java/client/DeviceGenerator.java:29-40 | the result k is at least 0; the running product first falls to L or below after exactly k+1 draws; k is 0 exactly when the first draw is at most L |
| PoissonSampler.StopsAfterUnique | wansu/client/app/src/main/java/client/DeviceGenerator.java:34-37 | the stopping draw is unique, so the result is determined by L and the draws |
| PoissonSampler.ProductMonotone | wansu/client/app/src/main/java/client/DeviceGenerator.java:36 | with draws in [0,1) the running product never increases and stays non-negative |
| PoissonSampler.ProductNonNegative | wansu/client/app/src/main/java/client/DeviceGenerator.java:36 | a product of draws in [0,1) is non-negative |
| PoissonSampler.StopsIffTotalProduct | wansu/client/app/src/main/java/client/DeviceGenerator.java:34-37 | for uniform draws, the loop stops within the supplied draws exactly when their whole product is at most L |
| DeviceGenerator.Clamp | wansu/client/app/src/main/java/client/DeviceGenerator.java:18 | Math.max(0.1, lam) is at least 0.1 and at least lam, and equals one of the two |
| DeviceGenerator.DevId | wansu/client/app/src/main/java/client/DeviceGenerator.java:21 | the id is "dev-" followed by at least four digits that read back as the sequence number |
| DeviceGenerator.AsWrittenRate | wansu/client/app/src/main/java/client/DeviceGenerator.java:15 | the coded rate misses the intended mean + g × std by exactly g × (1 − std) + std |
| DeviceGenerator.IntendedRate | wansu/client/app/src/main/java/client/DeviceGenerator.java:14-15 | with zero deviation the intended rate is the mean for every draw; with a positive one it lies above, at or below the mean as the draw is positive, zero or negative |
| DeviceGenerator.DeviceFor | wansu/client/app/src/main/java/client/DeviceGenerator.java:15-23 | the device of iteration i has id DevId(i) and a rate of at least 0.1 and at least the coded sum, equal to the sum or to 0.1 |
| DeviceGenerator.GenDevices | wansu/client/app/src/main/java/client/DeviceGenerator.java:10-27 | exactly max(n,0) devices in loop order; the j-th has id dev-%04d of j+1 and rate max(0.1, lamMean + g + lamStd) for its draw g; every rate is at least 0.1; ids are pairwise distinct |
| DeviceGenerator.DevIdInjective | wansu/client/app/src/main/java/client/DeviceGenerator.java:21 | two sequence numbers give the same id exactly when they are equal |
| DeviceGenerator.FirstIdIsDev0001 | wansu/client/app/src/main/java/client/DeviceGenerator.java:13-21 | the first id the loop generates is dev-0001 |
| DeviceGenerator.DevIdWidth | wansu/client/app/src/main/java/client/DeviceGenerator.java:21 | up to 9999 every id is 8 characters long |
| DeviceGenerator.ClampKeepsLargeRates | wansu/client/app/src/main/java/client/DeviceGenerator.java:15-18 | when lamMean + g + lamStd is at least 0.1, the device of every iteration gets that sum unchanged |
| DeviceGenerator.AsWrittenZeroStdDependsOnDraw | wansu/client/app/src/main/java/client/DeviceGenerator.java:15 | as written, with mean 1.0 and deviation 0.0 the rate still depends on the draw: draw 1.0 gives 2.0 and draw 0.0 gives 1.0 |
| DeviceGenerator.IntendedZeroStdGivesMean | wansu/client/app/src/main/java/client/DeviceGenerator.java:15 | with the intended mean + g × std, a zero deviation gives the clamped mean for every draw |
| Decimal.ZeroPad | wansu/client/app/src/main/java/client/DeviceGenerator.java:21 | %0wd yields only digits, and as many as the width or the number's own digit count, whichever is larger |
| Decimal.ParseZeroPad | wansu/client/app/src/main/java/client/DeviceGenerator.java:21 | reading a zero-padded number gives the number back |
| Decimal.ZeroPadInjective | wansu/client/app/src/main/java/client/DeviceGenerator.java:21 | two numbers have the same padding exactly when they are equal |
| Decimal.ZeroPad4Width | wansu/client/app/src/main/java/client/DeviceGenerator.java:21 | numbers up to 9999 pad to exactly four characters |
| DeviceTask.LiveDevice.constructor | wansu/client/app/src/main/java/client/App.java:48 | a new device has its sequence number, id and reading, and is off |
| DeviceTask.DeviceTask.constructor | wansu/client/app/src/main/java/client/DeviceTask.java:7-9 | the task holds the device it was given |
| DeviceTask.DeviceTask.OnDevice | wansu/client/app/src/main/java/client/DeviceTask.java:31-33 | the device is on afterwards; only its on flag may change |
| DeviceTask.DeviceTask.ShutdownDevice | wansu/client/app/src/main/java/client/DeviceTask.java:35-37 | the device is off afterwards; only its on flag may change |
| DeviceTask.DeviceTask.Run | wansu/client/app/src/main/java/client/DeviceTask.java:11-29 | the steps run performs, including an exception that escapes the loop, equal the reference trace RunSteps for the observations, and the device's final reading is the last generated one |
| DeviceTask.ExitIteration | wansu/client/app/src/main/java/client/DeviceTask.java:14-21 | the loop is left at the first iteration whose test fails, whose sleep is interrupted, or that throws an exception other than InterruptedException |
| DeviceTask.RunStepsExits | wansu/client/app/src/main/java/client/DeviceTask.java:14-28 | an iteration that leaves the loop (failed test; exception from nextIntervalMinutes or sleep; interrupted sleep and re-interrupt; exception from generateValue) ends the trace with one SHUTDOWN carrying the current reading |
| DeviceTask.RunStepsContinues | wansu/client/app/src/main/java/client/DeviceTask.java:14-25 | a completed iteration contributes test, sleep, generateValue and one DATA with the new reading, then the loop goes on from that reading |
| DeviceTask.CompletedIteration | wansu/client/app/src/main/java/client/DeviceTask.java:16-24 | a completed iteration adds exactly one DATA record and one completed sleep to the rest of the run |
| DeviceTask.ExitingIteration | wansu/client/app/src/main/java/client/DeviceTask.java:19-27 | a leaving iteration sends only the SHUTDOWN, and completes a sleep only when generateValue then threw |
| DeviceTask.RunRecords | wansu/client/app/src/main/java/client/DeviceTask.java:13-28 | the records have the form DATA* SHUTDOWN: one DATA per completed iteration with its reading, then a single SHUTDOWN, last, with the final reading |
| DeviceTask.ShutdownSentOnce | wansu/client/app/src/main/java/client/DeviceTask.java:13-27 | on each of the four exit paths (failed test, interrupted sleep, exception before or after the sleep) exactly one SHUTDOWN is sent, and all other records are DATA |
| DeviceTask.DataMatchesCompletedSleeps | wansu/client/app/src/main/java/client/DeviceTask.java:16-24 | the number of DATA records equals the number of sleeps that completed without interruption, less one when generateValue threw after the last of them |
| DeviceTask.RunStepOrder | wansu/client/app/src/main/java/client/DeviceTask.java:14-24 | every sleep is preceded by a passing loop test; a completed sleep is followed by generateValue and its DATA, or by the exception and the final SHUTDOWN; an interrupted one by the re-interrupt and the final SHUTDOWN, and nothing else |
| DeviceTask.RaiseThenShutdown | wansu/client/app/src/main/java/client/DeviceTask.java:13-28 | an exception escapes exactly when the leaving iteration throws one, and it is followed by the finally block's SHUTDOWN with the final reading and by nothing else |
| DeviceTask.StoppedAtEntry | wansu/client/app/src/main/java/client/DeviceTask.java:14-27 | when the device is off or the thread interrupted at entry, the only record is SHUTDOWN |
| DeviceTask.DataAfterShutdownDuringSleep | wansu/client/app/src/main/java/client/DeviceTask.java:16-24 | a shutdownDevice during an uninterrupted sleep still lets one DATA out before the SHUTDOWN |
| App.StartLog | wansu/client/app/src/main/java/client/App.java:54-59 | startDevices makes two calls per task |
| App.StopLog | wansu/client/app/src/main/java/client/App.java:67-69 | the hook makes one shutdownDevice call per task |
| App.StartLogShape | wansu/client/app/src/main/java/client/App.java:55-58 | tasks are visited in list order, each turned on and then submitted |
| App.SubmittedOnceAfterTurnOn | wansu/client/app/src/main/java/client/App.java:55-58 | every task is submitted exactly once, immediately after its device was turned on |
| App.StopLogShape | wansu/client/app/src/main/java/client/App.java:67-69 | the hook turns the devices off in list order |
| App.App.constructor | wansu/client/app/src/main/java/client/App.java:17 | the task list starts empty and no call has been made |
| App.App.InitDeviceTasks | wansu/client/app/src/main/java/client/App.java:45-52 | exactly max(devices,0) tasks are appended after the existing ones; the i-th new one wraps a fresh, off device with sequence number i and the id and reading of the i-th seed |
| App.App.StartDevices | wansu/client/app/src/main/java/client/App.java:54-59 | afterwards every device is on, the readings and task list are unchanged, and the calls are the turn-on/submit pairs in order |
| App.App.ShutdownHookRun | wansu/client/app/src/main/java/client/App.java:63-73 | afterwards every device is off and the readings and task list are unchanged; all shutdownDevice calls come, in order, before the one shutdownNow |
| App.App.Launch | wansu/client/app/src/main/java/client/App.java:36-42 | main fails with IllegalArgumentException, building nothing, exactly when devices < 1 (newFixedThreadPool); otherwise it builds and starts devices tasks, numbered 1.., all on |
| App.App.ShutdownHookTwice | wansu/client/app/src/main/java/client/App.java:67-69 | running the hook twice leaves every device off and the task list and every reading unchanged, as one run does |
| FactorySimulator.ExpInterval | sangheon/simulator_factory_data.py:13-15 | the interval is 1.0 whenever lam <= 0; otherwise it is the expovariate draw, positive when the draw is |
| FactorySimulator.Step | sangheon/simulator_factory_data.py:18-20 | the value moves by exactly the uniform draw, so by at most 0.5 |
| FactorySimulator.DevId | sangheon/simulator_factory_data.py:28 | the id is "dev-" followed by at least four digits that read back as the index |
| FactorySimulator.NewDevice | sangheon/simulator_factory_data.py:27-28 | the device of index i has id DevId(i), seq 0, value 50.0, and a rate of at least 0.1 and at least the draw, equal to the draw when that is at least 0.1 |
| FactorySimulator.DevIdInjective | sangheon/simulator_factory_data.py:28 | two indices give the same id exactly when they are equal |
| FactorySimulator.FirstIdIsDev0000 | sangheon/simulator_factory_data.py:26-28 | the first Python id is dev-0000 |
| FactorySimulator.GenDevices | sangheon/simulator_factory_data.py:23-30 | n devices in index order, the i-th with id dev-{i:04d}, rate max(0.1, g_i), seq 0 and value 50.0; ids pairwise distinct |
| FactorySimulator.LeastEntryUnique | sangheon/simulator_factory_data.py:45 | the least (ts, idx) pair of a queue is unique, so heappop's choice is determined |
| FactorySimulator.HeapPop | sangheon/simulator_factory_data.py:45 | fails (IndexError) exactly on an empty queue; otherwise returns a least entry and the queue without exactly that one entry |
| FactorySimulator.LeastIndex | sangheon/simulator_factory_data.py:45 | finds a position holding a least entry in tuple order |
| FactorySimulator.Reschedule | sangheon/simulator_factory_data.py:62 | the re-pushed entry keeps the device index and, for a positive interval, is strictly later than the served next_ts |
| FactorySimulator.Resumed | sangheon/simulator_factory_data.py:62 | resuming keeps the queue's entries and appends the pending device's rescheduled entry, so that device gains exactly one entry and no other device's count changes |
| FactorySimulator.Served | sangheon/simulator_factory_data.py:50-52 | serving a device increments its seq by exactly 1 and keeps its id and rate |
| FactorySimulator.FirstEntries | sangheon/simulator_factory_data.py:40-41 | one entry per device in index order, at now plus its first interval, so every device has exactly one entry |
| FactorySimulator.EventStream.constructor | sangheon/simulator_factory_data.py:33-41 | the devices are gen_devices' and the queue holds one entry per device, at now plus its first interval |
| FactorySimulator.EventStream.Next | sangheon/simulator_factory_data.py:44-62 | keeps exactly one entry per device and fails only with no devices; serves the least entry of the resumed queue; only the served device changes (seq+1); the event carries its id, seq and value; served times never decrease |
| CategoryRecommender.Join | category_recommender_e5_faiss.py:91-92 | ", ".join of no parts is empty; otherwise the text ends where the last part ends |
| CategoryRecommender.JoinPart | category_recommender_e5_faiss.py:91-92 | every part occurs in the joined text at its offset, followed by the separator when another part follows |
| CategoryRecommender.SynonymsOrEmpty | category_recommender_e5_faiss.py:92 | the synonyms list when the key is present, else the empty list |
| CategoryRecommender.LabelText | category_recommender_e5_faiss.py:90-93 | the label splits into the labelled path, description, comma-joined keywords and comma-joined synonyms, in that order |
| CategoryRecommender.LabelHasKeyword | category_recommender_e5_faiss.py:91-93 | every keyword occurs in the label, inside the keywords part at its place in the joined list |
| CategoryRecommender.LabelHasSynonym | category_recommender_e5_faiss.py:92-93 | every synonym occurs in the label, inside the final synonyms part at its place in the joined list |
| CategoryRecommender.MissingSynonymsLabel | category_recommender_e5_faiss.py:92 | a category without synonyms is labelled as one with an empty list, ending in an empty synonyms part |
| CategoryRecommender.TrimStart | category_recommender_e5_faiss.py:98 | removes exactly the leading whitespace run |
| CategoryRecommender.TrimEnd | category_recommender_e5_faiss.py:98 | removes exactly the trailing whitespace run |
| CategoryRecommender.Strip | category_recommender_e5_faiss.py:98 | the result is a slice of the input with no whitespace at either end |
| CategoryRecommender.StripCutsOnlySpace | category_recommender_e5_faiss.py:98 | only whitespace is cut off at either end |
| CategoryRecommender.StripFixedPoints | category_recommender_e5_faiss.py:98 | strip leaves a string unchanged exactly when it has no whitespace at either end |
| CategoryRecommender.StripIdempotent | category_recommender_e5_faiss.py:98 | stripping twice equals stripping once |
| CategoryRecommender.Norm | category_recommender_e5_faiss.py:96-99 | whatever the two substitutions do, norm's result has no leading or trailing whitespace |
| CategoryRecommender.BuildQuery | category_recommender_e5_faiss.py:95-100 | the query splits into "제목: ", the normalised title, " [SEP] 규격: " and the normalised spec |
| CategoryRecommender.DefaultSpecQuery | category_recommender_e5_faiss.py:95 | with the default spec "" the query ends with the bare spec label |
| CategoryRecommender.FindByCode | category_recommender_e5_faiss.py:118 | a found category is from the table and carries the code |
| CategoryRecommender.FindByCodeFails | category_recommender_e5_faiss.py:118 | the lookup fails exactly when no category carries the code |
| CategoryRecommender.FindByCodeDistinct | category_recommender_e5_faiss.py:118 | with distinct codes, looking up an entry's code finds that entry |
| CategoryRecommender.IdRoundTrip | category_recommender_e5_faiss.py:108-118 | in a table of canonical, distinct codes, str(int(code)) == code and the lookup finds the entry the id was made from |
| CategoryRecommender.Recommend | category_recommender_e5_faiss.py:112-120 | succeeds exactly when all of the first k ids resolve, returning k results in id order, each with its category's path, the code and the cosine; otherwise fails with StopIteration at the first id that does not resolve |
| CategoryRecommender.NegativeIdNeverResolves | category_recommender_e5_faiss.py:117-118 | a negative id never names a category of a table of canonical codes |
| CategoryTable.CodesCanonical | category_recommender_e5_faiss.py:27-88 | every CATEGORIES code is digits without a leading zero |
| CategoryTable.CodesDistinct | category_recommender_e5_faiss.py:27-88 | no two CATEGORIES entries share a code |
| CategoryTable.TableWellCoded | category_recommender_e5_faiss.py:27-88 | the table meets the round trip's conditions |
| CategoryTable.IndexIdRoundTrip | category_recommender_e5_faiss.py:108-118 | for every CATEGORIES entry the FAISS id int(code) looks up that same entry |
| CategoryTable.IndexedIdsResolve | category_recommender_e5_faiss.py:114-118 | when every returned id came from build_label_index, every lookup succeeds, so recommend returns k results |
| CategoryTable.PaddingIdFails | category_recommender_e5_faiss.py:114-118 | FAISS's padding id -1 (fewer neighbours than asked for) names no category, so recommend raises StopIteration for it |
| Decimal.NatToString | category_recommender_e5_faiss.py:117 | str(n) is canonical digits, starting with '0' exactly for 0 |
| Decimal.IntToString | category_recommender_e5_faiss.py:117 | str(i) is canonical for i >= 0 and starts with '-' for i < 0 |
| Decimal.Parse | category_recommender_e5_faiss.py:108 | int(s) of k digits is below 10^k |
| Decimal.ParseNatToString | category_recommender_e5_faiss.py:108 | int(str(n)) == n |
| Decimal.NatToStringParse | category_recommender_e5_faiss.py:108 | str(int(s)) == s for every canonical digit string |
| Decimal.NatToStringInjective | category_recommender_e5_faiss.py:117 | different numbers render differently |

## Left out

- Concurrency is not modelled: the thread pool, `executor.submit` and `shutdownNow`, `Thread.sleep`, interrupt delivery and `Runtime.addShutdownHook`.
  - What other threads do reaches `DeviceTask.Run` as per-iteration observations.
  - `App` records the calls it would make in an action log.
- `App.load` is left out: it reads `application.properties`, which is configuration I/O. `devices`, `lamMean` and `lamStd` are parameters.
- Random sources are foreign calls: `nextGaussian`, `nextDouble`, `random.gauss`, `random.expovariate` and `random.uniform`. Their results are passed in.
- The Java `Device` class body is not part of this model. The four-argument constructor, `isOn`/`setOn`, `getValue`, `generateValue` and `nextIntervalMinutes` are called from `DeviceTask.java` and `App.java` but are not defined in the shown `Device.java`.
  - `DeviceTask.LiveDevice` stands in with an id, an on flag and a reading.
  - generateValue's new reading comes from the observation.
  - `App.Seed` stands for what the unseen constructor sets for each device: its id and first reading.
- Floating-point detail is not modelled; reals are mathematical:
  - `round(…, 3)` in `stream_events`;
  - `%.3f` in `send`;
  - the `(long)(min * 60_000)` sleep truncation;
  - `Math.exp(-lambda)`, for which `SamplePoisson` takes L as a parameter;
  - Java's rendering of a double, which `Device.ToString` takes as text.
- Wall clocks, sleeping and printing are left out:
  - `time.time()` appears as the `now`/`clock` parameters;
  - `time.sleep`, `System.currentTimeMillis`, the `printf` in `send` and the record timestamp are not modelled.
- `heapq`'s array layout is not modelled. `FactorySimulator.HeapPop` has pop-min semantics on a list, and a push appends.
- `FactorySimulator.EventStream.Next` covers one resumption of the generator. The `while True` loop is unbounded, so the model is the step, and the invariant is what the step keeps.
- `FactorySimulator.EventStream.Next`: a Python generator that has raised is closed, so the next `next()` raises StopIteration. The model does not track this: after an IndexError, `Next` can be called again and reports IndexError again.
- `DeviceTask.DeviceTask.Run` models an exception other than InterruptedException as a `Fault` in the observation. Such an exception comes from `nextIntervalMinutes`, from `Thread.sleep` given a negative interval, or from `generateValue`. The log then ends with `Raise` and the finally block's SHUTDOWN. The rethrow to the executor is not modelled. A `generateValue` that throws is taken to leave the reading unchanged, since its body is not part of this model.
- `DeviceTask.DeviceTask.Run` and `PoissonSampler.SamplePoisson` require oracles that end the loop (`Stops`), because neither loop terminates for arbitrary inputs.
- `CategoryRecommender.Norm` treats the two `re.sub` calls as arbitrary string functions. Only facts that hold whatever the regexes do are proved.
- The `SentenceTransformer` encoder, FAISS index construction and search, and the printing in `main` are left out, being foreign libraries and output. `CategoryRecommender.Recommend` receives the ids and similarities of `index.search`, and searches a table given as a parameter; `CategoryTable` proves what the real table satisfies.
- `sangheon/producer_kafka.py` and the Spring/Kafka wrappers under `wansu/kafkademo/` are Kafka/Spring glue with no logic of their own.
- The Python devices are values in a list that the scheduler replaces one element at a time, not objects updated in place. Nothing else holds them, so no aliasing is lost.

## Findings

| source | as written | input that shows it | evidently intended | confidence | as-written member | corrected member |
|---|---|---|---|---|---|---|
| wansu/client/app/src/main/java/client/DeviceGenerator.java:15 | `lam = lamMean + random.nextGaussian() + lamStd`: the deviation is added to a standard-normal draw | lamMean 1.0, lamStd 0.0, draw 1.0 gives rate 2.0; the same settings with draw 0.0 give 1.0 | `lamMean + nextGaussian() * lamStd`, a normal draw with the configured mean and deviation, as the comment above the line and the Python `random.gauss(lam_mean, lam_std)` do | medium, not executed | DeviceGenerator.AsWrittenZeroStdDependsOnDraw | DeviceGenerator.IntendedZeroStdGivesMean |

`DeviceGenerator.GenDevices` keeps the code's sum, since it models the code as written. `DeviceGenerator.IntendedRate` is the corrected rate. Nothing else in the model consumes a generated rate.
