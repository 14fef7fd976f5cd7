/** generateFreeDrivingLog.py: spawn a hero vehicle, 107 autopilot vehicles,
    pedestrians and their AI controllers in chunked batches, record, then
    destroy every spawned actor in chunked batches. */
module Fleet {
  import opened Text
  import opened Chunking
  import opened Simulator

  const HeroBlueprint := "vehicle.audi.tt"
  const HeroRole := "hero"
  const ControllerBlueprint := "controller.ai.walker"
  /** `walkerNumber`: navigation locations drawn for pedestrians. */
  const WalkerNumber: nat := 60
  /** Commands in the vehicle list: the hero plus 89 cars, 14 motorbikes, 4 bicycles. */
  const VehicleCount: nat := 108
  /** `spawn_points[109]` is the last spawn point the vehicle list reads. */
  const RequiredSpawnPoints: nat := 110

  const NightCars := ["vehicle.audi.tt", "vehicle.chevrolet.impala", "vehicle.dodge_charger.police",
                      "vehicle.audi.etron", "vehicle.lincoln.mkz2017", "vehicle.mustang.mustang",
                      "vehicle.tesla.model3", "vehicle.volkswagen.t2"]
  const NightMotorbikes := ["vehicle.harley-davidson.low_rider", "vehicle.yamaha.yzf"]
  const NightBicycles := ["vehicle.gazelle.omafiets", "vehicle.diamondback.century", "vehicle.bh.crossbike"]

  /** The module-level blueprint lists `carBlueprints`, `motorbikeBlueprints`
      and `bicycleBlueprints`, held by name. */
  class BlueprintCatalog {
    var cars: seq<string>
    var motorbikes: seq<string>
    var bicycles: seq<string>

    constructor ()
      ensures cars == [] && motorbikes == [] && bicycles == []
    {
      cars, motorbikes, bicycles := [], [], [];
    }

    /** `makeNightBlueprints`: appends the night-time vehicle blueprints. */
    method MakeNightBlueprints()
      modifies this
      ensures cars == old(cars) + NightCars
      ensures motorbikes == old(motorbikes) + NightMotorbikes
      ensures bicycles == old(bicycles) + NightBicycles
    {
      cars := cars + NightCars;
      motorbikes := motorbikes + NightMotorbikes;
      bicycles := bicycles + NightBicycles;
    }
  }

  /** `random.choice(blueprints)`, where `draw` is the random draw. */
  function Choice(blueprints: seq<string>, draw: nat): (b: string)
    requires blueprints != []
    ensures b in blueprints
  {
    blueprints[draw % |blueprints|]
  }

  /** The spawn point the k-th vehicle command stands on: the hero and the
      cars take points 0..89, motorbikes 91..104, bicycles 106..109. */
  function SpawnIndex(k: nat): nat
  {
    if k < 90 then k else if k < 104 then k + 1 else k + 2
  }

  /** The blueprint list the k-th (non-hero) vehicle command draws from. */
  function CatalogFor(k: nat, cars: seq<string>, motorbikes: seq<string>, bicycles: seq<string>): seq<string>
  {
    if k < 90 then cars else if k < 104 then motorbikes else bicycles
  }

  /** `c` is the k-th vehicle command: drawn from the k-th command's
      blueprint list, standing on spawn point `SpawnIndex(k)`, autopilot on. */
  predicate VehicleAt(c: Command, k: nat, spawnPoints: seq<Transform>, cars: seq<string>,
                      motorbikes: seq<string>, bicycles: seq<string>, draw: nat -> nat)
  {
    var blueprints := CatalogFor(k, cars, motorbikes, bicycles);
    blueprints != [] && SpawnIndex(k) < |spawnPoints| &&
    c == SpawnVehicle(Choice(blueprints, draw(k)), None, spawnPoints[SpawnIndex(k)])
  }

  /** The vehicle command list: the hero on spawn point 0, then command k
      as `VehicleAt` describes it, 108 commands in all. */
  predicate VehicleList(vehiclesToSpawn: seq<Command>, spawnPoints: seq<Transform>, cars: seq<string>,
                        motorbikes: seq<string>, bicycles: seq<string>, draw: nat -> nat)
  {
    && |vehiclesToSpawn| == VehicleCount && spawnPoints != []
    && vehiclesToSpawn[0] == SpawnVehicle(HeroBlueprint, Some(HeroRole), spawnPoints[0])
    && forall k :: 1 <= k < VehicleCount ==>
         VehicleAt(vehiclesToSpawn[k], k, spawnPoints, cars, motorbikes, bicycles, draw)
  }

  /** Vehicle command list construction. None stands for the exception the
      script raises: too few spawn points or an empty blueprint list. */
  method BuildVehicleCommands(spawnPoints: seq<Transform>, cars: seq<string>, motorbikes: seq<string>,
                              bicycles: seq<string>, draw: nat -> nat)
    returns (r: Option<seq<Command>>)
    ensures r.None? <==> |spawnPoints| < RequiredSpawnPoints || cars == [] || motorbikes == [] || bicycles == []
    ensures r.Some? ==> VehicleList(r.value, spawnPoints, cars, motorbikes, bicycles, draw)
  {
    if |spawnPoints| == 0 {
      return None;
    }
    var vehiclesToSpawn := [SpawnVehicle(HeroBlueprint, Some(HeroRole), spawnPoints[0])];
    for i := 1 to 90
      invariant |vehiclesToSpawn| == i && i <= |spawnPoints|
      invariant i > 1 ==> cars != []
      invariant vehiclesToSpawn[0] == SpawnVehicle(HeroBlueprint, Some(HeroRole), spawnPoints[0])
      invariant forall k :: 1 <= k < i ==>
        VehicleAt(vehiclesToSpawn[k], k, spawnPoints, cars, motorbikes, bicycles, draw)
    {
      if i >= |spawnPoints| || cars == [] {
        return None;
      }
      vehiclesToSpawn := vehiclesToSpawn + [SpawnVehicle(Choice(cars, draw(i)), None, spawnPoints[i])];
    }
    for i := 91 to 105
      invariant |vehiclesToSpawn| == i - 1 && i - 1 <= |spawnPoints| && (i > 91 ==> i <= |spawnPoints|)
      invariant cars != [] && (i > 91 ==> motorbikes != [])
      invariant vehiclesToSpawn[0] == SpawnVehicle(HeroBlueprint, Some(HeroRole), spawnPoints[0])
      invariant forall k :: 1 <= k < i - 1 ==>
        VehicleAt(vehiclesToSpawn[k], k, spawnPoints, cars, motorbikes, bicycles, draw)
    {
      if i >= |spawnPoints| || motorbikes == [] {
        return None;
      }
      vehiclesToSpawn := vehiclesToSpawn + [SpawnVehicle(Choice(motorbikes, draw(i - 1)), None, spawnPoints[i])];
    }
    for i := 106 to 110
      invariant |vehiclesToSpawn| == i - 2 && i - 1 <= |spawnPoints| && (i > 106 ==> i <= |spawnPoints|)
      invariant cars != [] && motorbikes != [] && (i > 106 ==> bicycles != [])
      invariant vehiclesToSpawn[0] == SpawnVehicle(HeroBlueprint, Some(HeroRole), spawnPoints[0])
      invariant forall k :: 1 <= k < i - 2 ==>
        VehicleAt(vehiclesToSpawn[k], k, spawnPoints, cars, motorbikes, bicycles, draw)
    {
      if i >= |spawnPoints| || bicycles == [] {
        return None;
      }
      vehiclesToSpawn := vehiclesToSpawn + [SpawnVehicle(Choice(bicycles, draw(i - 2)), None, spawnPoints[i])];
    }
    r := Some(vehiclesToSpawn);
  }

  /** The spawn point that vehicle command `SpawnSlot(p)` stands on is `p`. */
  function SpawnSlot(p: nat): nat
  {
    if p < 90 then p else if p < 105 then p - 1 else p - 2
  }

  /** The vehicle list uses 108 distinct spawn points below 110: every point
      except 90 and 105. */
  lemma VehicleSpawnLayout()
    ensures forall j, k :: 0 <= j < k < VehicleCount ==> SpawnIndex(j) < SpawnIndex(k)
    ensures forall k :: 0 <= k < VehicleCount ==>
      SpawnIndex(k) < RequiredSpawnPoints && SpawnIndex(k) != 90 && SpawnIndex(k) != 105
    ensures forall p :: 0 <= p < RequiredSpawnPoints && p != 90 && p != 105 ==>
      SpawnSlot(p) < VehicleCount && SpawnIndex(SpawnSlot(p)) == p
  {
  }

  /** The 108 vehicle commands go out in twelve full chunks, no remainder. */
  lemma VehicleBatches(vehiclesToSpawn: seq<Command>)
    requires |vehiclesToSpawn| == VehicleCount
    ensures |Chunks(vehiclesToSpawn)| == 12
    ensures forall k :: 0 <= k < 12 ==> |Chunks(vehiclesToSpawn)[k]| == ChunkSize
  {
  }

  /** `carla.Transform()` with its location replaced by `loc`. */
  function WalkerSpawnPoint(loc: Location): Transform
  {
    DefaultTransform.(location := loc)
  }

  /** The walker spawn points kept from the first `n` navigation draws: one
      per draw that found a location, in draw order. */
  function NavigablePoints(nav: nat -> Option<Location>, n: nat): (points: seq<Transform>)
    ensures |points| <= n
  {
    if n == 0 then []
    else NavigablePoints(nav, n - 1) + (if nav(n - 1).Some? then [WalkerSpawnPoint(nav(n - 1).value)] else [])
  }

  /** The kept points are the found locations, in draw order: point `p` comes
      from draw `Draw(nav, n, p)`, and the draws increase with `p`. */
  function DrawOf(nav: nat -> Option<Location>, n: nat, p: nat): (d: nat)
    requires p < |NavigablePoints(nav, n)|
    ensures d < n && nav(d).Some? && NavigablePoints(nav, n)[p] == WalkerSpawnPoint(nav(d).value)
  {
    if p < |NavigablePoints(nav, n - 1)| then DrawOf(nav, n - 1, p) else n - 1
  }

  /** At most one point per draw; exactly one per draw that found a location. */
  lemma {:induction false} NavigablePointsCount(nav: nat -> Option<Location>, n: nat)
    ensures |NavigablePoints(nav, n)| <= n
    ensures |NavigablePoints(nav, n)| == n <==> forall d :: 0 <= d < n ==> nav(d).Some?
  {
    if n > 0 {
      NavigablePointsCount(nav, n - 1);
    }
  }

  /** Draw order is kept: earlier points come from earlier draws. */
  lemma {:induction false} NavigablePointsOrdered(nav: nat -> Option<Location>, n: nat, p: nat, q: nat)
    requires p < q < |NavigablePoints(nav, n)|
    ensures DrawOf(nav, n, p) < DrawOf(nav, n, q)
  {
    if q < |NavigablePoints(nav, n - 1)| {
      NavigablePointsOrdered(nav, n - 1, p, q);
    }
  }

  /** Step 1 of the walker setup: draw `walkerNumber` navigation locations
      and keep the ones that are not None. */
  method CollectWalkerSpawnPoints(nav: nat -> Option<Location>) returns (walkerSpawnPoints: seq<Transform>)
    ensures walkerSpawnPoints == NavigablePoints(nav, WalkerNumber)
    ensures |walkerSpawnPoints| <= WalkerNumber
  {
    walkerSpawnPoints := [];
    for i := 0 to WalkerNumber
      invariant walkerSpawnPoints == NavigablePoints(nav, i)
    {
      var loc := nav(i);
      if loc != None {
        walkerSpawnPoints := walkerSpawnPoints + [WalkerSpawnPoint(loc.value)];
      }
    }
    NavigablePointsCount(nav, WalkerNumber);
  }

  /** Walker command k spawns a pedestrian drawn from `walkerBlueprints` on
      spawn point k. */
  predicate WalkerCommands(walkersToSpawn: seq<Command>, walkerSpawnPoints: seq<Transform>,
                           walkerBlueprints: seq<string>, draw: nat -> nat)
  {
    && |walkersToSpawn| == |walkerSpawnPoints|
    && forall k :: 0 <= k < |walkerSpawnPoints| ==>
         walkerBlueprints != [] && walkersToSpawn[k] == SpawnWalker(Choice(walkerBlueprints, draw(k)), walkerSpawnPoints[k])
  }

  /** Step 2: one walker spawn command per spawn point, with a randomly
      chosen pedestrian blueprint. None when `random.choice` would raise. */
  method BuildWalkerCommands(walkerSpawnPoints: seq<Transform>, walkerBlueprints: seq<string>, draw: nat -> nat)
    returns (r: Option<seq<Command>>)
    ensures r.None? <==> walkerSpawnPoints != [] && walkerBlueprints == []
    ensures r.Some? ==> WalkerCommands(r.value, walkerSpawnPoints, walkerBlueprints, draw)
  {
    var walkersToSpawn := [];
    for k := 0 to |walkerSpawnPoints|
      invariant |walkersToSpawn| == k
      invariant k > 0 ==> walkerBlueprints != []
      invariant forall j :: 0 <= j < k ==>
        (walkerBlueprints != [] && walkersToSpawn[j] == SpawnWalker(Choice(walkerBlueprints, draw(j)), walkerSpawnPoints[j]))
    {
      if walkerBlueprints == [] {
        return None;
      }
      walkersToSpawn := walkersToSpawn + [SpawnWalker(Choice(walkerBlueprints, draw(k)), walkerSpawnPoints[k])];
    }
    r := Some(walkersToSpawn);
  }

  /** Vehicle spawn pass: the vehicle commands go out in chunks and every
      response's `actor_id` is appended, in submission order. No response's
      error is looked at, so a failed spawn leaves its id (0) in the list. */
  method SpawnVehicles(client: Client, vehiclesToSpawn: seq<Command>) returns (spawnedVehicleIDs: seq<ActorId>)
    requires client.Valid()
    modifies client
    ensures client.Valid()
    ensures client.submitted == old(client.submitted) + Chunks(vehiclesToSpawn)
    ensures client.answered == old(client.answered) + AnswersTo(client.respond, old(|client.submitted|), Chunks(vehiclesToSpawn))
    ensures |spawnedVehicleIDs| == |vehiclesToSpawn|
    ensures forall k :: 0 <= k < |vehiclesToSpawn| ==>
      spawnedVehicleIDs[k] == Reply(client.respond, old(|client.submitted|), vehiclesToSpawn, k).actorId
    ensures spawnedVehicleIDs == ReplyIds(client.respond, old(|client.submitted|), vehiclesToSpawn)
  {
    ghost var base := |client.submitted|;
    var batches := ApplyInChunks(client, vehiclesToSpawn);
    AnswerShape(client.respond, base, vehiclesToSpawn);
    spawnedVehicleIDs := CollectIds(|vehiclesToSpawn|, batches);
    MapReplies(IdOf, client.respond, base, vehiclesToSpawn, batches);
    assert spawnedVehicleIDs == ReplyIds(client.respond, base, vehiclesToSpawn);
  }

  /** `response.actor_id`. */
  function IdOf(response: Response): ActorId
  {
    response.actorId
  }

  /** The `actor_id` answered to each of `commands`, in order, when they go
      out in chunks starting with call number `base`. */
  function ReplyIds(respond: (nat, nat, Command) -> Response, base: nat, commands: seq<Command>): seq<ActorId>
  {
    seq(|commands|, k requires 0 <= k < |commands| => Reply(respond, base, commands, k).actorId)
  }

  /** The `actor_id` of every response of `batches`, in call order. */
  function AnswerIds(batches: seq<seq<Response>>): seq<ActorId>
  {
    Map(IdOf, Flatten(batches))
  }

  /** The ids in the answers to a chunked pass are the ids answered to its
      commands, one per command and in command order. */
  lemma AnswerIdsReplies(respond: (nat, nat, Command) -> Response, base: nat, commands: seq<Command>)
    ensures AnswerIds(AnswersTo(respond, base, Chunks(commands))) == ReplyIds(respond, base, commands)
  {
    MapReplies(IdOf, respond, base, commands, AnswersTo(respond, base, Chunks(commands)));
  }

  /** The id bookkeeping of the vehicle pass: the `actor_id` of every
      response of the full chunks, then of the remainder chunk, in order. */
  method CollectIds(n: nat, batches: seq<seq<Response>>) returns (spawnedVehicleIDs: seq<ActorId>)
    requires ChunkShaped(n, batches)
    ensures spawnedVehicleIDs == Map(IdOf, Flatten(batches))
  {
    var numFullChunks := n / ChunkSize;
    var chunkRemainder := n % ChunkSize;
    spawnedVehicleIDs := [];
    for i := 0 to numFullChunks
      invariant spawnedVehicleIDs == Map(IdOf, Flatten(batches[..i]))
    {
      spawnedVehicleIDs := AppendIds(spawnedVehicleIDs, batches[i]);
      FlattenPrefix(batches, i);
      MapConcat(IdOf, Flatten(batches[..i]), batches[i]);
    }
    if chunkRemainder > 0 {
      spawnedVehicleIDs := AppendIds(spawnedVehicleIDs, batches[numFullChunks]);
      FlattenPrefix(batches, numFullChunks);
      MapConcat(IdOf, Flatten(batches[..numFullChunks]), batches[numFullChunks]);
      assert batches[..numFullChunks + 1] == batches;
    } else {
      assert batches[..numFullChunks] == batches;
    }
  }

  /** `for response in batchResponse: spawnedVehicleIDs.append(response.actor_id)`. */
  method AppendIds(ids: seq<ActorId>, batchResponse: seq<Response>) returns (r: seq<ActorId>)
    ensures r == ids + Map(IdOf, batchResponse)
  {
    r := ids;
    for j := 0 to |batchResponse|
      invariant r == ids + Map(IdOf, batchResponse[..j])
    {
      r := r + [batchResponse[j].actorId];
      assert batchResponse[..j + 1][..j] == batchResponse[..j];
    }
    assert batchResponse[..|batchResponse|] == batchResponse;
  }

  /** A spawned walker: the `{"id": …}` dict, with the `"con"` key once its
      controller's response has been stored. */
  datatype WalkerEntry = WalkerEntry(id: ActorId, con: Option<ActorId>)

  /** The value `i` still holds when the walker pass starts: the last value
      of `for i in range(walkerNumber)`. */
  const StaleLoopIndex: nat := WalkerNumber - 1

  /** The index into `walker_speed` read for response j of a walker pass of n
      commands: the chunk counter `i` inside the full-chunk loop; in the
      remainder chunk, whatever `i` holds afterwards, which is the last chunk
      counter, or `StaleLoopIndex` when there was no full chunk. */
  function SpeedIndex(n: nat, j: nat): nat
  {
    var numFullChunks := n / ChunkSize;
    if j < ChunkSize * numFullChunks then j / ChunkSize
    else if numFullChunks > 0 then numFullChunks - 1
    else StaleLoopIndex
  }

  /** The indices the full-chunk loop appends over its first c chunks:
      nine copies of each chunk counter. */
  function FullChunkSpeeds(c: nat): (s: seq<nat>)
    ensures |s| == ChunkSize * c
  {
    if c == 0 then [] else FullChunkSpeeds(c - 1) + seq(ChunkSize, _ => c - 1)
  }

  /** `walker_speed2` for n walkers, as the pass builds it: the full
      chunks' indices, then `chunkRemainder` copies of what `i` holds. */
  function WalkerSpeedIndices(n: nat): seq<nat>
  {
    var numFullChunks := n / ChunkSize;
    FullChunkSpeeds(numFullChunks)
      + seq(n % ChunkSize, _ => if numFullChunks > 0 then numFullChunks - 1 else StaleLoopIndex)
  }

  lemma {:induction false} FullChunkSpeedsIndex(c: nat, k: nat)
    requires k < ChunkSize * c
    ensures FullChunkSpeeds(c)[k] == k / ChunkSize
  {
    if k < ChunkSize * (c - 1) {
      FullChunkSpeedsIndex(c - 1, k);
    }
  }

  /** The list built chunk by chunk holds, for response j, the index
      `SpeedIndex` says is read for it. */
  lemma WalkerSpeedIndicesAgree(n: nat)
    ensures |WalkerSpeedIndices(n)| == n
    ensures forall k :: 0 <= k < n ==> WalkerSpeedIndices(n)[k] == SpeedIndex(n, k)
  {
    var numFullChunks := n / ChunkSize;
    forall k | 0 <= k < n ensures WalkerSpeedIndices(n)[k] == SpeedIndex(n, k) {
      if k < ChunkSize * numFullChunks {
        FullChunkSpeedsIndex(numFullChunks, k);
      }
    }
  }

  /** `walker_speed` has one entry per walker command. Reading it at
      `SpeedIndex` stays in range for every response exactly when there are
      no walkers or at least one full chunk of them. */
  lemma SpeedIndexInRange(n: nat)
    ensures (forall j :: 0 <= j < n ==> SpeedIndex(n, j) < n) <==> n == 0 || n >= ChunkSize
  {
    if 0 < n < ChunkSize {
      assert SpeedIndex(n, 0) == StaleLoopIndex;
    }
  }

  /** `{"id": response.actor_id}`. */
  function NewWalker(response: Response): WalkerEntry
  {
    WalkerEntry(response.actorId, None)
  }

  /** Walker spawn pass: the walker commands go out in chunks; each response
      appends `{"id": actor_id}` to `spawnedWalkerList` and one entry of
      `walker_speed` to `walker_speed2` (modelled by its index). With one to
      eight walkers the index is out of range and the script stops with an
      IndexError right after the remainder batch was sent. */
  method SpawnWalkers(client: Client, walkersToSpawn: seq<Command>)
    returns (spawnedWalkerList: seq<WalkerEntry>, walkerSpeed2: seq<nat>, indexError: bool)
    requires client.Valid()
    modifies client
    ensures client.Valid()
    ensures client.submitted == old(client.submitted) + Chunks(walkersToSpawn)
    ensures client.answered == old(client.answered) + AnswersTo(client.respond, old(|client.submitted|), Chunks(walkersToSpawn))
    ensures indexError <==> 0 < |walkersToSpawn| < ChunkSize
    ensures !indexError ==> |spawnedWalkerList| == |walkerSpeed2| == |walkersToSpawn|
    ensures !indexError ==> forall k :: 0 <= k < |walkersToSpawn| ==>
      && spawnedWalkerList[k] == WalkerEntry(Reply(client.respond, old(|client.submitted|), walkersToSpawn, k).actorId, None)
      && walkerSpeed2[k] == SpeedIndex(|walkersToSpawn|, k) && walkerSpeed2[k] < |walkersToSpawn|
  {
    ghost var base := |client.submitted|;
    var batches := ApplyInChunks(client, walkersToSpawn);
    AnswerShape(client.respond, base, walkersToSpawn);
    spawnedWalkerList, walkerSpeed2, indexError := CollectWalkers(|walkersToSpawn|, batches);
    if !indexError {
      MapReplies(NewWalker, client.respond, base, walkersToSpawn, batches);
      WalkerSpeedIndicesAgree(|walkersToSpawn|);
      SpeedIndexInRange(|walkersToSpawn|);
    }
  }

  /** The bookkeeping of the walker pass over the answers to `n` walker
      commands. `i` is the script's function-wide loop variable: the chunk
      counter inside the full-chunk loop, and afterwards whatever it last
      held, which `walker_speed[i]` then reads for the remainder chunk. */
  method CollectWalkers(n: nat, batches: seq<seq<Response>>)
    returns (spawnedWalkerList: seq<WalkerEntry>, walkerSpeed2: seq<nat>, indexError: bool)
    requires ChunkShaped(n, batches)
    ensures indexError <==> 0 < n < ChunkSize
    ensures !indexError ==> spawnedWalkerList == Map(NewWalker, Flatten(batches))
    ensures !indexError ==> walkerSpeed2 == WalkerSpeedIndices(n)
  {
    var numFullChunks := n / ChunkSize;
    var chunkRemainder := n % ChunkSize;
    var i;
    spawnedWalkerList, walkerSpeed2, i := CollectFullChunkWalkers(n, batches);
    indexError := false;
    if chunkRemainder > 0 {
      assert i < n <==> numFullChunks > 0;
      spawnedWalkerList, walkerSpeed2, indexError := AppendWalkers(spawnedWalkerList, walkerSpeed2, batches[numFullChunks], i, n);
      if indexError {
        return;
      }
      FlattenPrefix(batches, numFullChunks);
      MapConcat(NewWalker, Flatten(batches[..numFullChunks]), batches[numFullChunks]);
      assert batches[..numFullChunks + 1] == batches;
    } else {
      assert batches[..numFullChunks] == batches;
    }
  }

  /** The full-chunk loop of the walker pass; also returns the value the
      loop variable `i` is left with. */
  method CollectFullChunkWalkers(n: nat, batches: seq<seq<Response>>)
    returns (spawnedWalkerList: seq<WalkerEntry>, walkerSpeed2: seq<nat>, i: nat)
    requires ChunkShaped(n, batches)
    ensures spawnedWalkerList == Map(NewWalker, Flatten(batches[..n / ChunkSize]))
    ensures walkerSpeed2 == FullChunkSpeeds(n / ChunkSize)
    ensures i == if n / ChunkSize > 0 then n / ChunkSize - 1 else StaleLoopIndex
  {
    var numFullChunks := n / ChunkSize;
    spawnedWalkerList, walkerSpeed2 := [], [];
    i := StaleLoopIndex;
    for c := 0 to numFullChunks
      invariant i == if c == 0 then StaleLoopIndex else c - 1
      invariant spawnedWalkerList == Map(NewWalker, Flatten(batches[..c]))
      invariant walkerSpeed2 == FullChunkSpeeds(c)
    {
      i := c;
      var indexError;
      spawnedWalkerList, walkerSpeed2, indexError := AppendWalkers(spawnedWalkerList, walkerSpeed2, batches[c], i, n);
      assert !indexError;
      FlattenPrefix(batches, c);
      MapConcat(NewWalker, Flatten(batches[..c]), batches[c]);
    }
  }

  /** One chunk of the walker pass: for each response, append
      `{"id": actor_id}`, then `walker_speed[i]`. `walker_speed` has `n`
      entries, so with `i >= n` the first read raises IndexError, after the
      first id was appended. */
  method AppendWalkers(spawnedWalkerList: seq<WalkerEntry>, walkerSpeed2: seq<nat>,
                       batchResponse: seq<Response>, i: nat, n: nat)
    returns (walkers: seq<WalkerEntry>, speeds: seq<nat>, indexError: bool)
    ensures indexError <==> batchResponse != [] && i >= n
    ensures indexError ==> walkers == spawnedWalkerList + [NewWalker(batchResponse[0])]
    ensures !indexError ==> walkers == spawnedWalkerList + Map(NewWalker, batchResponse)
    ensures !indexError ==> speeds == walkerSpeed2 + seq(|batchResponse|, _ => i)
  {
    walkers, speeds, indexError := spawnedWalkerList, walkerSpeed2, false;
    for r := 0 to |batchResponse|
      invariant walkers == spawnedWalkerList + Map(NewWalker, batchResponse[..r])
      invariant r > 0 ==> i < n
      invariant speeds == walkerSpeed2 + seq(r, _ => i)
    {
      assert batchResponse[..r + 1] == batchResponse[..r] + [batchResponse[r]];
      MapSnoc(NewWalker, batchResponse[..r], batchResponse[r]);
      walkers := walkers + [NewWalker(batchResponse[r])];
      if i >= n {
        indexError := true;
        return;
      }
      speeds := speeds + [i];
      assert seq(r + 1, _ => i) == seq(r, _ => i) + [i];
    }
    assert batchResponse[..|batchResponse|] == batchResponse;
  }

  /** `SpawnActor(walker_controller_bp, carla.Transform(), walker["id"])`. */
  function ControllerFor(walker: WalkerEntry): Command
  {
    SpawnController(ControllerBlueprint, DefaultTransform, walker.id)
  }

  /** Step 3: one controller command per spawned walker, in walker order. */
  method BuildControllerCommands(spawnedWalkerList: seq<WalkerEntry>) returns (walkerControllersToSpawn: seq<Command>)
    ensures walkerControllersToSpawn == Map(ControllerFor, spawnedWalkerList)
  {
    walkerControllersToSpawn := [];
    for i := 0 to |spawnedWalkerList|
      invariant walkerControllersToSpawn == Map(ControllerFor, spawnedWalkerList[..i])
    {
      walkerControllersToSpawn := walkerControllersToSpawn + [ControllerFor(spawnedWalkerList[i])];
      assert spawnedWalkerList[..i + 1][..i] == spawnedWalkerList[..i];
    }
    assert spawnedWalkerList[..|spawnedWalkerList|] == spawnedWalkerList;
  }

  /** `walkers` with the "con" of the first `|cons|` entries set, entry k
      to `cons[k]`. */
  function Attach(walkers: seq<WalkerEntry>, cons: seq<ActorId>): (r: seq<WalkerEntry>)
    requires |cons| <= |walkers|
    ensures |r| == |walkers|
  {
    seq(|walkers|, k requires 0 <= k < |walkers| =>
      if k < |cons| then walkers[k].(con := Some(cons[k])) else walkers[k])
  }

  /** Storing the next controller id extends the attached prefix by one. */
  lemma AttachSnoc(walkers: seq<WalkerEntry>, cons: seq<ActorId>, con: ActorId)
    requires |cons| < |walkers|
    ensures Attach(walkers, cons + [con])
         == Attach(walkers, cons)[|cons| := Attach(walkers, cons)[|cons|].(con := Some(con))]
  {
  }

  /** The pairing of the controller pass: response after response, across
      chunks, the id goes to walker `resultCounter`, which then advances. */
  method PairControllers(spawnedWalkerList: seq<WalkerEntry>, batches: seq<seq<Response>>)
    returns (walkers: seq<WalkerEntry>, resultCounter: nat)
    requires ChunkShaped(|spawnedWalkerList|, batches)
    ensures resultCounter == |spawnedWalkerList| == |Flatten(batches)|
    ensures walkers == Attach(spawnedWalkerList, Map(IdOf, Flatten(batches)))
  {
    var n := |spawnedWalkerList|;
    var numFullChunks := n / ChunkSize;
    var chunkRemainder := n % ChunkSize;
    walkers, resultCounter := spawnedWalkerList, 0;
    for i := 0 to numFullChunks
      invariant resultCounter == ChunkSize * i == |Flatten(batches[..i])|
      invariant walkers == Attach(spawnedWalkerList, Map(IdOf, Flatten(batches[..i])))
    {
      walkers, resultCounter := StoreControllers(spawnedWalkerList, Flatten(batches[..i]), walkers, resultCounter, batches[i]);
      FlattenPrefix(batches, i);
    }
    if chunkRemainder > 0 {
      walkers, resultCounter := StoreControllers(spawnedWalkerList, Flatten(batches[..numFullChunks]), walkers, resultCounter, batches[numFullChunks]);
      FlattenPrefix(batches, numFullChunks);
      assert batches[..numFullChunks + 1] == batches;
    } else {
      assert batches[..numFullChunks] == batches;
    }
  }

  /** `for response in batchResponse: spawnedWalkerList[resultCounter]["con"] =
      response.actor_id; resultCounter += 1`, after the responses `done`. */
  method StoreControllers(spawnedWalkerList: seq<WalkerEntry>, ghost done: seq<Response>,
                          walkers: seq<WalkerEntry>, resultCounter: nat, batchResponse: seq<Response>)
    returns (walkers': seq<WalkerEntry>, resultCounter': nat)
    requires resultCounter == |done| && resultCounter + |batchResponse| <= |spawnedWalkerList|
    requires walkers == Attach(spawnedWalkerList, Map(IdOf, done))
    ensures resultCounter' == resultCounter + |batchResponse|
    ensures walkers' == Attach(spawnedWalkerList, Map(IdOf, done + batchResponse))
  {
    walkers', resultCounter' := walkers, resultCounter;
    assert done + batchResponse[..0] == done;
    for r := 0 to |batchResponse|
      invariant resultCounter' == resultCounter + r
      invariant walkers' == Attach(spawnedWalkerList, Map(IdOf, done + batchResponse[..r]))
    {
      assert done + batchResponse[..r + 1] == done + batchResponse[..r] + [batchResponse[r]];
      MapSnoc(IdOf, done + batchResponse[..r], batchResponse[r]);
      AttachSnoc(spawnedWalkerList, Map(IdOf, done + batchResponse[..r]), batchResponse[r].actorId);
      walkers' := walkers'[resultCounter' := walkers'[resultCounter'].(con := Some(batchResponse[r].actorId))];
      resultCounter' := resultCounter' + 1;
    }
    assert batchResponse[..|batchResponse|] == batchResponse;
  }

  /** Controller spawn pass: one controller per walker, sent in chunks; the
      k-th controller response, counted across chunks, is stored as walker
      k's "con". */
  method SpawnControllers(client: Client, spawnedWalkerList: seq<WalkerEntry>)
    returns (walkers: seq<WalkerEntry>, resultCounter: nat)
    requires client.Valid()
    modifies client
    ensures client.Valid()
    ensures client.submitted == old(client.submitted) + Chunks(Map(ControllerFor, spawnedWalkerList))
    ensures client.answered
         == old(client.answered) + AnswersTo(client.respond, old(|client.submitted|), Chunks(Map(ControllerFor, spawnedWalkerList)))
    ensures resultCounter == |walkers| == |spawnedWalkerList|
    ensures forall k :: 0 <= k < |spawnedWalkerList| ==>
      walkers[k] == WalkerEntry(spawnedWalkerList[k].id,
                                Some(Reply(client.respond, old(|client.submitted|), Map(ControllerFor, spawnedWalkerList), k).actorId))
  {
    ghost var base := |client.submitted|;
    var walkerControllersToSpawn := BuildControllerCommands(spawnedWalkerList);
    var batches := ApplyInChunks(client, walkerControllersToSpawn);
    AnswerShape(client.respond, base, walkerControllersToSpawn);
    walkers, resultCounter := PairControllers(spawnedWalkerList, batches);
    MapReplies(IdOf, client.respond, base, walkerControllersToSpawn, batches);
  }

  /** Controller command k is parented to walker k. */
  lemma ControllerParents(spawnedWalkerList: seq<WalkerEntry>, k: nat)
    requires k < |spawnedWalkerList|
    ensures Map(ControllerFor, spawnedWalkerList)[k].SpawnController?
    ensures Map(ControllerFor, spawnedWalkerList)[k].parent == spawnedWalkerList[k].id
  {
    MapIndex(ControllerFor, spawnedWalkerList, k);
  }

  /** Every walker has its controller's id. */
  predicate Paired(walkers: seq<WalkerEntry>)
  {
    forall k :: 0 <= k < |walkers| ==> walkers[k].con.Some?
  }

  /** `[con0, id0, con1, id1, …]`. */
  function Interleaved(walkers: seq<WalkerEntry>): (ids: seq<ActorId>)
    requires Paired(walkers)
    ensures |ids| == 2 * |walkers|
  {
    if walkers == [] then []
    else
      var last := walkers[|walkers| - 1];
      Interleaved(walkers[..|walkers| - 1]) + [last.con.value, last.id]
  }

  /** The walkers' ids, in walker order. */
  function WalkerIds(walkers: seq<WalkerEntry>): (ids: seq<ActorId>)
    ensures |ids| == |walkers|
  {
    if walkers == [] then [] else WalkerIds(walkers[..|walkers| - 1]) + [walkers[|walkers| - 1].id]
  }

  /** Entry k of `WalkerIds` is walker k's id. */
  lemma {:induction false} WalkerIdsIndex(walkers: seq<WalkerEntry>, k: nat)
    requires k < |walkers|
    ensures WalkerIds(walkers)[k] == walkers[k].id
  {
    if k < |walkers| - 1 {
      WalkerIdsIndex(walkers[..|walkers| - 1], k);
    }
  }

  /** The controllers' ids, in walker order. */
  function ControllerIds(walkers: seq<WalkerEntry>): (ids: seq<ActorId>)
    requires Paired(walkers)
    ensures |ids| == |walkers|
  {
    if walkers == [] then [] else ControllerIds(walkers[..|walkers| - 1]) + [walkers[|walkers| - 1].con.value]
  }

  /** Entry k of `ControllerIds` is walker k's controller. */
  lemma {:induction false} ControllerIdsIndex(walkers: seq<WalkerEntry>, k: nat)
    requires Paired(walkers) && k < |walkers|
    ensures ControllerIds(walkers)[k] == walkers[k].con.value
  {
    if k < |walkers| - 1 {
      ControllerIdsIndex(walkers[..|walkers| - 1], k);
    }
  }

  /** Position 2k holds walker k's controller, position 2k + 1 the walker. */
  lemma {:induction false} InterleavedIndex(walkers: seq<WalkerEntry>, k: nat)
    requires Paired(walkers) && k < |walkers|
    ensures Interleaved(walkers)[2 * k] == walkers[k].con.value
    ensures Interleaved(walkers)[2 * k + 1] == walkers[k].id
  {
    if k < |walkers| - 1 {
      InterleavedIndex(walkers[..|walkers| - 1], k);
    }
  }

  /** The interleaved list holds every walker id and every controller id,
      each as often as it occurs among them. */
  lemma {:induction false} InterleavedMultiset(walkers: seq<WalkerEntry>)
    requires Paired(walkers)
    ensures multiset(Interleaved(walkers)) == multiset(WalkerIds(walkers)) + multiset(ControllerIds(walkers))
  {
    if walkers != [] {
      InterleavedMultiset(walkers[..|walkers| - 1]);
    }
  }

  /** Step 4: `walkerIDList` interleaves controller and walker ids;
      `controllerList` holds the controllers in walker order. */
  method CollectActorIds(spawnedWalkerList: seq<WalkerEntry>) returns (walkerIDList: seq<ActorId>, controllerList: seq<ActorId>)
    requires Paired(spawnedWalkerList)
    ensures walkerIDList == Interleaved(spawnedWalkerList)
    ensures controllerList == ControllerIds(spawnedWalkerList)
  {
    walkerIDList := [];
    for i := 0 to |spawnedWalkerList|
      invariant walkerIDList == Interleaved(spawnedWalkerList[..i])
    {
      walkerIDList := walkerIDList + [spawnedWalkerList[i].con.value, spawnedWalkerList[i].id];
      assert spawnedWalkerList[..i + 1][..i] == spawnedWalkerList[..i];
    }
    controllerList := [];
    for i := 0 to |spawnedWalkerList|
      invariant controllerList == ControllerIds(spawnedWalkerList[..i])
    {
      controllerList := controllerList + [spawnedWalkerList[i].con.value];
      assert spawnedWalkerList[..i + 1][..i] == spawnedWalkerList[..i];
    }
    assert spawnedWalkerList[..|spawnedWalkerList|] == spawnedWalkerList;
  }

  /** `carla.command.DestroyActor(id)`. */
  function DestroyOf(id: ActorId): Command
  {
    DestroyActor(id)
  }

  /** A destroy pass: the ids go out in chunks of nine, each chunk as
      `[DestroyActor(x) for x in chunk]`; the responses are not read. */
  method DestroyActors(client: Client, ids: seq<ActorId>)
    requires client.Valid()
    modifies client
    ensures client.Valid()
    ensures client.submitted == old(client.submitted) + Chunks(Map(DestroyOf, ids))
    ensures |client.submitted| == old(|client.submitted|) + |Chunks(ids)|
    ensures forall c :: 0 <= c < |Chunks(ids)| ==>
      client.submitted[old(|client.submitted|) + c] == Map(DestroyOf, Chunks(ids)[c])
    ensures client.answered
         == old(client.answered) + AnswersTo(client.respond, old(|client.submitted|), Chunks(Map(DestroyOf, ids)))
  {
    var batchResponses := ApplyInChunks(client, Map(DestroyOf, ids));
    ChunksOfMap(DestroyOf, ids);
  }

  /** The actors that the `DestroyActor` commands among `commands` target,
      with multiplicity. */
  function Destroyed(commands: seq<Command>): multiset<ActorId>
  {
    if commands == [] then multiset{}
    else
      var last := commands[|commands| - 1];
      Destroyed(commands[..|commands| - 1]) + if last.DestroyActor? then multiset{last.actor} else multiset{}
  }

  lemma {:induction false} DestroyedConcat(a: seq<Command>, b: seq<Command>)
    ensures Destroyed(a + b) == Destroyed(a) + Destroyed(b)
    decreases |b|
  {
    if b == [] {
      assert a + b == a;
    } else {
      assert (a + b)[..|a + b| - 1] == a + b[..|b| - 1];
      DestroyedConcat(a, b[..|b| - 1]);
    }
  }

  /** A destroy command list targets each id as often as it occurs. */
  lemma {:induction false} DestroyedIds(ids: seq<ActorId>)
    ensures Destroyed(Map(DestroyOf, ids)) == multiset(ids)
  {
    if ids != [] {
      var n := |ids| - 1;
      DestroyedIds(ids[..n]);
      assert ids == ids[..n] + [ids[n]];
    }
  }

  /** No command in the list destroys anything. */
  predicate SpawnsOnly(commands: seq<Command>)
  {
    forall k :: 0 <= k < |commands| ==> !commands[k].DestroyActor?
  }

  lemma {:induction false} DestroyedSpawns(commands: seq<Command>)
    requires SpawnsOnly(commands)
    ensures Destroyed(commands) == multiset{}
  {
    if commands != [] {
      DestroyedSpawns(commands[..|commands| - 1]);
    }
  }

  /** Chunking changes nothing about what is destroyed. */
  lemma DestroyedChunks(commands: seq<Command>)
    ensures Destroyed(Flatten(Chunks(commands))) == Destroyed(commands)
  {
    ChunksConcatenate(commands);
  }

  /** What a chunked submission destroys is what its chunks destroy. */
  lemma DestroyedFlattenConcat(ss: seq<seq<Command>>, tt: seq<seq<Command>>)
    ensures Destroyed(Flatten(ss + tt)) == Destroyed(Flatten(ss)) + Destroyed(Flatten(tt))
  {
    FlattenConcat(ss, tt);
    DestroyedConcat(Flatten(ss), Flatten(tt));
  }

  /** The controller commands spawn and destroy nothing. */
  lemma ControllersSpawnOnly(spawnedWalkerList: seq<WalkerEntry>)
    ensures SpawnsOnly(Map(ControllerFor, spawnedWalkerList))
  {
    forall k | 0 <= k < |spawnedWalkerList| ensures !Map(ControllerFor, spawnedWalkerList)[k].DestroyActor? {
      ControllerParents(spawnedWalkerList, k);
    }
  }

  /** Spawn passes alone destroy nothing. */
  lemma SpawnRunDestroysNothing(vehicles: seq<Command>, walkers: seq<Command>)
    requires SpawnsOnly(vehicles) && SpawnsOnly(walkers)
    ensures Destroyed(Flatten(Chunks(vehicles))) == multiset{}
    ensures Destroyed(Flatten(Chunks(vehicles) + Chunks(walkers))) == multiset{}
  {
    DestroyedFlattenConcat(Chunks(vehicles), Chunks(walkers));
    DestroyedChunks(vehicles);
    DestroyedChunks(walkers);
    DestroyedSpawns(vehicles);
    DestroyedSpawns(walkers);
  }

  /** After spawn passes that destroyed nothing and a controller pass, the
      two destroy passes destroy exactly the ids handed to them. */
  lemma CleanUpDestroys(spawned: seq<seq<Command>>, controllers: seq<Command>,
                        ids1: seq<ActorId>, ids2: seq<ActorId>)
    requires Destroyed(Flatten(spawned)) == multiset{} && SpawnsOnly(controllers)
    ensures Destroyed(Flatten(spawned + Chunks(controllers) + Chunks(Map(DestroyOf, ids1)) + Chunks(Map(DestroyOf, ids2))))
         == multiset(ids1) + multiset(ids2)
  {
    var c, d, e := Chunks(controllers), Chunks(Map(DestroyOf, ids1)), Chunks(Map(DestroyOf, ids2));
    DestroyedFlattenConcat(spawned + c + d, e);
    DestroyedFlattenConcat(spawned + c, d);
    DestroyedFlattenConcat(spawned, c);
    DestroyedChunks(controllers);
    DestroyedChunks(Map(DestroyOf, ids1));
    DestroyedChunks(Map(DestroyOf, ids2));
    DestroyedSpawns(controllers);
    DestroyedIds(ids1);
    DestroyedIds(ids2);
  }

  /** How the script ends. */
  datatype Outcome =
      /** `spawn_points[i]` raised IndexError while building the vehicle list. */
    | TooFewSpawnPoints
      /** `random.choice` raised IndexError on an empty pedestrian blueprint list. */
    | NoWalkerBlueprints
      /** `walker_speed[i]` raised IndexError in the walker pass. */
    | WalkerSpeedIndexError
      /** Every actor was spawned, recorded and destroyed. */
    | Recorded

  /** Step 1 of the script: the night blueprints are loaded, the hero and
      the vehicle fleet are placed on the shuffled spawn points and spawned.
      None when there are fewer than 110 spawn points (`spawn_points[i]`
      raises before anything is sent). */
  method VehiclePass(client: Client, spawnPoints: seq<Transform>, vehicleDraw: nat -> nat)
    returns (vehicles: Option<seq<Command>>, spawnedVehicleIDs: seq<ActorId>)
    requires client.Valid()
    modifies client
    ensures client.Valid()
    ensures vehicles.None? <==> |spawnPoints| < RequiredSpawnPoints
    ensures vehicles.None? ==> client.submitted == old(client.submitted) && client.answered == old(client.answered)
    ensures vehicles.Some? ==>
      && VehicleList(vehicles.value, spawnPoints, NightCars, NightMotorbikes, NightBicycles, vehicleDraw)
      && SpawnsOnly(vehicles.value)
      && client.submitted == old(client.submitted) + Chunks(vehicles.value)
      && client.answered == old(client.answered) + AnswersTo(client.respond, old(|client.submitted|), Chunks(vehicles.value))
      && spawnedVehicleIDs == ReplyIds(client.respond, old(|client.submitted|), vehicles.value)
  {
    var catalog := new BlueprintCatalog();
    catalog.MakeNightBlueprints();
    vehicles := BuildVehicleCommands(spawnPoints, catalog.cars, catalog.motorbikes, catalog.bicycles, vehicleDraw);
    spawnedVehicleIDs := [];
    if vehicles.Some? {
      spawnedVehicleIDs := SpawnVehicles(client, vehicles.value);
    }
  }

  /** `spawned` holds one entry per command in `walkers`, carrying the
      id the simulator answered to it, with no controller yet. */
  predicate SpawnedFrom(spawned: seq<WalkerEntry>, respond: (nat, nat, Command) -> Response, base: nat,
                        walkers: seq<Command>)
  {
    && |spawned| == |walkers|
    && forall k :: 0 <= k < |walkers| ==> spawned[k] == WalkerEntry(Reply(respond, base, walkers, k).actorId, None)
  }

  /** Steps 2 and 3: walker spawn points and commands, then the walker pass.
      None when a navigable point was found but there is no pedestrian
      blueprint to choose from. */
  method WalkerPass(client: Client, nav: nat -> Option<Location>, walkerBlueprints: seq<string>, walkerDraw: nat -> nat)
    returns (walkers: Option<seq<Command>>, spawnedWalkerList: seq<WalkerEntry>, indexError: bool)
    requires client.Valid()
    modifies client
    ensures client.Valid()
    ensures walkers.None? <==> NavigablePoints(nav, WalkerNumber) != [] && walkerBlueprints == []
    ensures walkers.None? ==> client.submitted == old(client.submitted) && client.answered == old(client.answered)
    ensures walkers.Some? ==>
      && WalkerCommands(walkers.value, NavigablePoints(nav, WalkerNumber), walkerBlueprints, walkerDraw)
      && SpawnsOnly(walkers.value)
      && client.submitted == old(client.submitted) + Chunks(walkers.value)
      && client.answered == old(client.answered) + AnswersTo(client.respond, old(|client.submitted|), Chunks(walkers.value))
      && (indexError <==> 0 < |NavigablePoints(nav, WalkerNumber)| < ChunkSize)
    ensures walkers.Some? && !indexError ==>
      SpawnedFrom(spawnedWalkerList, client.respond, old(|client.submitted|), walkers.value)
  {
    var walkerSpawnPoints := CollectWalkerSpawnPoints(nav);
    walkers := BuildWalkerCommands(walkerSpawnPoints, walkerBlueprints, walkerDraw);
    spawnedWalkerList, indexError := [], false;
    if walkers.Some? {
      var walkerSpeed2;
      spawnedWalkerList, walkerSpeed2, indexError := SpawnWalkers(client, walkers.value);
    }
  }

  /** Steps 4 and 5: the controller pass, then the id lists the script
      keeps for the clean-up. */
  method ControllerPass(client: Client, spawnedWalkerList: seq<WalkerEntry>)
    returns (walkers: seq<WalkerEntry>, walkerIDList: seq<ActorId>)
    requires client.Valid()
    modifies client
    ensures client.Valid()
    ensures client.submitted == old(client.submitted) + Chunks(Map(ControllerFor, spawnedWalkerList))
    ensures client.answered
         == old(client.answered) + AnswersTo(client.respond, old(|client.submitted|), Chunks(Map(ControllerFor, spawnedWalkerList)))
    ensures SpawnsOnly(Map(ControllerFor, spawnedWalkerList))
    ensures |walkers| == |spawnedWalkerList| && Paired(walkers)
    ensures forall k :: 0 <= k < |spawnedWalkerList| ==>
      walkers[k] == WalkerEntry(spawnedWalkerList[k].id,
                                Some(Reply(client.respond, old(|client.submitted|), Map(ControllerFor, spawnedWalkerList), k).actorId))
    ensures walkerIDList == Interleaved(walkers)
  {
    var resultCounter;
    walkers, resultCounter := SpawnControllers(client, spawnedWalkerList);
    ControllersSpawnOnly(spawnedWalkerList);
    var controllerList;
    walkerIDList, controllerList := CollectActorIds(walkers);
  }

  /** Steps 4 and 5, the recording, and the clean-up: after the controller
      pass both destroy passes run (`spawnedVehicleIDs`, then `walkerIDList`),
      so every vehicle, walker and controller id is destroyed exactly as
      often as it was collected. */
  method ControllersAndCleanUp(client: Client, ghost spawned: seq<seq<Command>>,
                               spawnedVehicleIDs: seq<ActorId>, spawnedWalkerList: seq<WalkerEntry>)
    returns (walkers: seq<WalkerEntry>)
    requires client.Valid() && client.submitted == spawned && Destroyed(Flatten(spawned)) == multiset{}
    modifies client
    ensures client.Valid()
    ensures |walkers| == |spawnedWalkerList| && Paired(walkers)
    ensures WalkerIds(walkers) == WalkerIds(spawnedWalkerList)
    ensures ControllerIds(walkers) == ReplyIds(client.respond, |spawned|, Map(ControllerFor, spawnedWalkerList))
    ensures spawned + Chunks(Map(ControllerFor, spawnedWalkerList)) <= client.submitted
    ensures client.submitted
         == spawned + Chunks(Map(ControllerFor, spawnedWalkerList))
          + Chunks(Map(DestroyOf, spawnedVehicleIDs)) + Chunks(Map(DestroyOf, Interleaved(walkers)))
    ensures old(client.answered) + AnswersTo(client.respond, |spawned|, Chunks(Map(ControllerFor, spawnedWalkerList)))
         <= client.answered
    ensures Destroyed(Flatten(client.submitted))
         == multiset(spawnedVehicleIDs) + multiset(WalkerIds(spawnedWalkerList)) + multiset(ControllerIds(walkers))
  {
    ghost var controllers := Map(ControllerFor, spawnedWalkerList);
    var walkerIDList;
    walkers, walkerIDList := ControllerPass(client, spawnedWalkerList);
    PairedIds(spawnedWalkerList, walkers, client.respond, |spawned|);
    CleanUp(client, spawnedVehicleIDs, walkerIDList);
    assert Destroyed(Flatten(client.submitted)) == multiset(spawnedVehicleIDs) + multiset(walkerIDList) by {
      CleanUpDestroys(spawned, controllers, spawnedVehicleIDs, walkerIDList);
    }
    InterleavedMultiset(walkers);
  }

  /** The clean-up after the recording: a destroy pass over
      `spawnedVehicleIDs`, then one over `walkerIDList`. */
  method CleanUp(client: Client, spawnedVehicleIDs: seq<ActorId>, walkerIDList: seq<ActorId>)
    requires client.Valid()
    modifies client
    ensures client.Valid()
    ensures client.submitted
         == old(client.submitted) + Chunks(Map(DestroyOf, spawnedVehicleIDs)) + Chunks(Map(DestroyOf, walkerIDList))
    ensures old(client.answered) <= client.answered
  {
    DestroyActors(client, spawnedVehicleIDs);
    DestroyActors(client, walkerIDList);
  }

  /** What the controller pass leaves: walker k keeps its id and holds the
      id answered to controller command k. */
  lemma PairedIds(spawnedWalkerList: seq<WalkerEntry>, walkers: seq<WalkerEntry>,
                  respond: (nat, nat, Command) -> Response, base: nat)
    requires |walkers| == |spawnedWalkerList|
    requires forall k :: 0 <= k < |spawnedWalkerList| ==>
      walkers[k] == WalkerEntry(spawnedWalkerList[k].id, Some(Reply(respond, base, Map(ControllerFor, spawnedWalkerList), k).actorId))
    ensures Paired(walkers)
    ensures WalkerIds(walkers) == WalkerIds(spawnedWalkerList)
    ensures ControllerIds(walkers) == ReplyIds(respond, base, Map(ControllerFor, spawnedWalkerList))
  {
    forall k | 0 <= k < |walkers| ensures WalkerIds(walkers)[k] == WalkerIds(spawnedWalkerList)[k] {
      WalkerIdsIndex(walkers, k);
      WalkerIdsIndex(spawnedWalkerList, k);
    }
    forall k | 0 <= k < |walkers|
      ensures ControllerIds(walkers)[k] == ReplyIds(respond, base, Map(ControllerFor, spawnedWalkerList))[k]
    {
      ControllerIdsIndex(walkers, k);
    }
  }

  /** The whole script after the connection is made: vehicles, walkers and
      controllers are spawned in chunks, and after the recording every
      spawned actor is destroyed in chunks. `respond` stands for the
      simulator, `spawnPoints` for the map's spawn points after
      `random.shuffle`, `vehicleDraw`/`walkerDraw` for `random.choice` and
      `nav` for `get_random_location_from_navigation`. When the script stops
      on an exception, nothing it spawned has been destroyed. */
  method GenerateFreeDrivingLog(respond: (nat, nat, Command) -> Response, spawnPoints: seq<Transform>,
                                walkerBlueprints: seq<string>, vehicleDraw: nat -> nat,
                                nav: nat -> Option<Location>, walkerDraw: nat -> nat)
    returns (client: Client, outcome: Outcome, spawnedVehicleIDs: seq<ActorId>, spawnedWalkerList: seq<WalkerEntry>)
    ensures client.Valid() && client.respond == respond
    ensures outcome == TooFewSpawnPoints <==> |spawnPoints| < RequiredSpawnPoints
    ensures outcome == TooFewSpawnPoints ==> client.submitted == []
    ensures outcome == NoWalkerBlueprints <==>
      |spawnPoints| >= RequiredSpawnPoints && NavigablePoints(nav, WalkerNumber) != [] && walkerBlueprints == []
    ensures outcome == WalkerSpeedIndexError <==>
      |spawnPoints| >= RequiredSpawnPoints && walkerBlueprints != [] && 0 < |NavigablePoints(nav, WalkerNumber)| < ChunkSize
    ensures outcome != TooFewSpawnPoints ==>
      VehicleLog(client.submitted, client.answered, spawnPoints, vehicleDraw, spawnedVehicleIDs)
    ensures outcome != Recorded ==> Destroyed(Flatten(client.submitted)) == multiset{}
    ensures outcome == Recorded ==>
      && |spawnedWalkerList| == |NavigablePoints(nav, WalkerNumber)|
      && Paired(spawnedWalkerList)
      && WalkerLog(client.submitted, client.answered, NavigablePoints(nav, WalkerNumber), walkerBlueprints, walkerDraw,
                   spawnedWalkerList)
      && Destroyed(Flatten(client.submitted))
         == multiset(spawnedVehicleIDs) + multiset(WalkerIds(spawnedWalkerList)) + multiset(ControllerIds(spawnedWalkerList))
    ensures outcome == Recorded ==>
      DestroyLog(client.submitted, Calls(|NavigablePoints(nav, WalkerNumber)|), spawnedVehicleIDs, spawnedWalkerList)
  {
    client := new Client(respond);
    spawnedWalkerList := [];
    var vehicles;
    vehicles, spawnedVehicleIDs := VehiclePass(client, spawnPoints, vehicleDraw);
    if vehicles.None? {
      return client, TooFewSpawnPoints, spawnedVehicleIDs, [];
    }
    ghost var vehiclesToSpawn := vehicles.value;
    ghost var s1, a1 := Chunks(vehiclesToSpawn), AnswersTo(respond, 0, Chunks(vehiclesToSpawn));
    assert client.submitted == s1 && client.answered == a1;
    VehicleRunLog(respond, vehiclesToSpawn, spawnedVehicleIDs, spawnPoints, vehicleDraw, client.submitted, client.answered);
    SpawnRunDestroysNothing(vehiclesToSpawn, []);

    var walkers, indexError;
    walkers, spawnedWalkerList, indexError := WalkerPass(client, nav, walkerBlueprints, walkerDraw);
    if walkers.None? {
      return client, NoWalkerBlueprints, spawnedVehicleIDs, [];
    }
    ghost var walkersToSpawn := walkers.value;
    ghost var s2, a2 := Chunks(walkersToSpawn), AnswersTo(respond, |s1|, Chunks(walkersToSpawn));
    assert client.submitted == s1 + s2 && client.answered == a1 + a2;
    SpawnRunDestroysNothing(vehiclesToSpawn, walkersToSpawn);
    if indexError {
      VehicleRunLog(respond, vehiclesToSpawn, spawnedVehicleIDs, spawnPoints, vehicleDraw, client.submitted, client.answered);
      return client, WalkerSpeedIndexError, spawnedVehicleIDs, spawnedWalkerList;
    }
    ghost var walkersBefore := spawnedWalkerList;
    assert SpawnedFrom(walkersBefore, respond, |s1|, walkersToSpawn);
    spawnedWalkerList := ControllersAndCleanUp(client, client.submitted, spawnedVehicleIDs, spawnedWalkerList);
    outcome := Recorded;
    CleanUpLog(vehiclesToSpawn, walkersToSpawn, Map(ControllerFor, walkersBefore), spawnPoints, vehicleDraw,
               NavigablePoints(nav, WalkerNumber), walkerBlueprints, walkerDraw,
               spawnedVehicleIDs, spawnedWalkerList, client.submitted);
    RecordedRunLog(respond, vehiclesToSpawn, spawnedVehicleIDs, spawnPoints, vehicleDraw,
                   walkersToSpawn, walkersBefore, spawnedWalkerList, NavigablePoints(nav, WalkerNumber),
                   walkerBlueprints, walkerDraw, client.submitted, client.answered);
  }

  /** Calls to `apply_batch_sync` in the vehicle pass: 108 commands in
      chunks of nine. */
  const VehicleCalls: nat := 12

  /** The first twelve calls of a run spawn the vehicles, and their answers
      carry the ids the script keeps. */
  predicate VehicleLog(submitted: seq<seq<Command>>, answered: seq<seq<Response>>,
                       spawnPoints: seq<Transform>, vehicleDraw: nat -> nat, ids: seq<ActorId>)
  {
    && VehicleCalls <= |submitted| && VehicleCalls <= |answered|
    && VehicleList(Flatten(submitted[..VehicleCalls]), spawnPoints, NightCars, NightMotorbikes, NightBicycles, vehicleDraw)
    && ids == AnswerIds(answered[..VehicleCalls])
  }

  /** After the vehicle calls, `w` calls spawn the walkers at `points` and
      `w` more their controllers; the answers carry the ids the script pairs
      up in `walkers`. */
  predicate WalkerLog(submitted: seq<seq<Command>>, answered: seq<seq<Response>>, points: seq<Transform>,
                      walkerBlueprints: seq<string>, walkerDraw: nat -> nat, walkers: seq<WalkerEntry>)
  {
    var w := Calls(|points|);
    && VehicleCalls + 2 * w <= |submitted| && VehicleCalls + 2 * w <= |answered|
    && WalkerCommands(Flatten(submitted[VehicleCalls..][..w]), points, walkerBlueprints, walkerDraw)
    && Flatten(submitted[VehicleCalls..][w..][..w]) == Map(ControllerFor, walkers)
    && WalkerIds(walkers) == AnswerIds(answered[VehicleCalls..][..w])
    && Paired(walkers)
    && ControllerIds(walkers) == AnswerIds(answered[VehicleCalls..][w..][..w])
  }

  /** After the vehicle, walker and controller calls, nothing is sent but
      the destroy batches: the vehicles' ids in chunks of nine, then the
      walker and controller ids, interleaved, in chunks of nine. */
  predicate DestroyLog(submitted: seq<seq<Command>>, w: nat, ids: seq<ActorId>, walkers: seq<WalkerEntry>)
  {
    && VehicleCalls + 2 * w <= |submitted|
    && Paired(walkers)
    && submitted[VehicleCalls..][w..][w..] == Chunks(Map(DestroyOf, ids)) + Chunks(Map(DestroyOf, Interleaved(walkers)))
  }

  /** A finished run's log, read back after its three spawn passes. */
  lemma CleanUpLog(vehiclesToSpawn: seq<Command>, walkersToSpawn: seq<Command>, controllers: seq<Command>,
                   spawnPoints: seq<Transform>, vehicleDraw: nat -> nat,
                   points: seq<Transform>, walkerBlueprints: seq<string>, walkerDraw: nat -> nat,
                   ids: seq<ActorId>, walkers: seq<WalkerEntry>, submitted: seq<seq<Command>>)
    requires VehicleList(vehiclesToSpawn, spawnPoints, NightCars, NightMotorbikes, NightBicycles, vehicleDraw)
    requires WalkerCommands(walkersToSpawn, points, walkerBlueprints, walkerDraw)
    requires |controllers| == |walkersToSpawn| && Paired(walkers)
    requires submitted == Chunks(vehiclesToSpawn) + Chunks(walkersToSpawn) + Chunks(controllers)
                        + Chunks(Map(DestroyOf, ids)) + Chunks(Map(DestroyOf, Interleaved(walkers)))
    ensures DestroyLog(submitted, Calls(|points|), ids, walkers)
  {
    VehicleBatches(vehiclesToSpawn);
    ChunkCount(walkersToSpawn);
    ChunkCount(controllers);
    SuffixAfterPrefix(Chunks(vehiclesToSpawn), Chunks(walkersToSpawn), Chunks(controllers),
                      Chunks(Map(DestroyOf, ids)) + Chunks(Map(DestroyOf, Interleaved(walkers))), submitted);
  }

  /** What follows three parts at the head of a sequence. */
  lemma SuffixAfterPrefix<T>(a: seq<T>, b: seq<T>, c: seq<T>, rest: seq<T>, all: seq<T>)
    requires all == a + b + c + rest
    ensures |a| + |b| + |c| <= |all| && all[|a|..][|b|..][|c|..] == rest
  {
    assert all[|a|..] == b + c + rest;
    assert all[|a|..][|b|..] == c + rest;
  }

  /** The vehicle pass, at the head of the logs, is read back as
      `VehicleLog`. */
  lemma VehicleRunLog(respond: (nat, nat, Command) -> Response, vehiclesToSpawn: seq<Command>, ids: seq<ActorId>,
                      spawnPoints: seq<Transform>, vehicleDraw: nat -> nat,
                      submitted: seq<seq<Command>>, answered: seq<seq<Response>>)
    requires VehicleList(vehiclesToSpawn, spawnPoints, NightCars, NightMotorbikes, NightBicycles, vehicleDraw)
    requires ids == ReplyIds(respond, 0, vehiclesToSpawn)
    requires Chunks(vehiclesToSpawn) <= submitted && AnswersTo(respond, 0, Chunks(vehiclesToSpawn)) <= answered
    ensures VehicleLog(submitted, answered, spawnPoints, vehicleDraw, ids)
  {
    VehicleBatches(vehiclesToSpawn);
    ChunksConcatenate(vehiclesToSpawn);
    AnswerIdsReplies(respond, 0, vehiclesToSpawn);
    VehicleLogOf(submitted, answered, Chunks(vehiclesToSpawn), AnswersTo(respond, 0, Chunks(vehiclesToSpawn)),
                 spawnPoints, vehicleDraw, ids);
  }

  /** A finished run, read back from the logs: the vehicle pass, then the
      walker pass, then the controller pass, each answered in turn. */
  lemma RecordedRunLog(respond: (nat, nat, Command) -> Response, vehiclesToSpawn: seq<Command>, ids: seq<ActorId>,
                       spawnPoints: seq<Transform>, vehicleDraw: nat -> nat,
                       walkersToSpawn: seq<Command>, spawned: seq<WalkerEntry>, walkers: seq<WalkerEntry>,
                       points: seq<Transform>, walkerBlueprints: seq<string>, walkerDraw: nat -> nat,
                       submitted: seq<seq<Command>>, answered: seq<seq<Response>>)
    requires VehicleList(vehiclesToSpawn, spawnPoints, NightCars, NightMotorbikes, NightBicycles, vehicleDraw)
    requires ids == ReplyIds(respond, 0, vehiclesToSpawn)
    requires WalkerCommands(walkersToSpawn, points, walkerBlueprints, walkerDraw)
    requires SpawnedFrom(spawned, respond, |Chunks(vehiclesToSpawn)|, walkersToSpawn)
    requires Paired(walkers) && WalkerIds(walkers) == WalkerIds(spawned)
    requires ControllerIds(walkers)
          == ReplyIds(respond, |Chunks(vehiclesToSpawn) + Chunks(walkersToSpawn)|, Map(ControllerFor, spawned))
    requires Chunks(vehiclesToSpawn) + Chunks(walkersToSpawn) + Chunks(Map(ControllerFor, spawned)) <= submitted
    requires AnswersTo(respond, 0, Chunks(vehiclesToSpawn))
           + AnswersTo(respond, |Chunks(vehiclesToSpawn)|, Chunks(walkersToSpawn))
           + AnswersTo(respond, |Chunks(vehiclesToSpawn) + Chunks(walkersToSpawn)|, Chunks(Map(ControllerFor, spawned)))
          <= answered
    ensures VehicleLog(submitted, answered, spawnPoints, vehicleDraw, ids)
    ensures WalkerLog(submitted, answered, points, walkerBlueprints, walkerDraw, walkers)
  {
    var s1, s2, s3 := Chunks(vehiclesToSpawn), Chunks(walkersToSpawn), Chunks(Map(ControllerFor, spawned));
    var a1 := AnswersTo(respond, 0, s1);
    var a2 := AnswersTo(respond, |s1|, s2);
    var a3 := AnswersTo(respond, |s1 + s2|, s3);
    assert s1 <= submitted && a1 <= answered by {
      assert s1 <= s1 + s2 + s3 && a1 <= a1 + a2 + a3;
    }
    VehicleRunLog(respond, vehiclesToSpawn, ids, spawnPoints, vehicleDraw, submitted, answered);
    VehicleBatches(vehiclesToSpawn);
    ChunkCount(walkersToSpawn);
    ChunksConcatenate(walkersToSpawn);
    ChunkCount(Map(ControllerFor, spawned));
    ChunksConcatenate(Map(ControllerFor, spawned));
    SameControllers(spawned, walkers);
    SpawnedIds(spawned, respond, |s1|, walkersToSpawn);
    AnswerIdsReplies(respond, |s1|, walkersToSpawn);
    AnswerIdsReplies(respond, |s1 + s2|, Map(ControllerFor, spawned));
    WalkerLogOf(submitted, answered, s1, s2, s3, a1, a2, a3, points, walkerBlueprints, walkerDraw, walkers);
  }

  /** The walker ids the script keeps are the ids the simulator answered. */
  lemma SpawnedIds(spawned: seq<WalkerEntry>, respond: (nat, nat, Command) -> Response, base: nat,
                   walkers: seq<Command>)
    requires SpawnedFrom(spawned, respond, base, walkers)
    ensures WalkerIds(spawned) == ReplyIds(respond, base, walkers)
  {
    forall k | 0 <= k < |spawned| ensures WalkerIds(spawned)[k] == ReplyIds(respond, base, walkers)[k] {
      WalkerIdsIndex(spawned, k);
    }
  }

  /** A vehicle pass at the head of the logs is read back as `VehicleLog`. */
  lemma VehicleLogOf(submitted: seq<seq<Command>>, answered: seq<seq<Response>>,
                     s1: seq<seq<Command>>, a1: seq<seq<Response>>,
                     spawnPoints: seq<Transform>, vehicleDraw: nat -> nat, ids: seq<ActorId>)
    requires s1 <= submitted && a1 <= answered && |s1| == |a1| == VehicleCalls
    requires VehicleList(Flatten(s1), spawnPoints, NightCars, NightMotorbikes, NightBicycles, vehicleDraw)
    requires ids == AnswerIds(a1)
    ensures VehicleLog(submitted, answered, spawnPoints, vehicleDraw, ids)
  {
    assert submitted[..VehicleCalls] == s1;
    assert answered[..VehicleCalls] == a1;
  }

  /** Walker and controller passes right after the vehicle pass are read
      back as `WalkerLog`. */
  lemma WalkerLogOf(submitted: seq<seq<Command>>, answered: seq<seq<Response>>,
                    s1: seq<seq<Command>>, s2: seq<seq<Command>>, s3: seq<seq<Command>>,
                    a1: seq<seq<Response>>, a2: seq<seq<Response>>, a3: seq<seq<Response>>,
                    points: seq<Transform>, walkerBlueprints: seq<string>, walkerDraw: nat -> nat,
                    walkers: seq<WalkerEntry>)
    requires s1 + s2 + s3 <= submitted && a1 + a2 + a3 <= answered
    requires |s1| == |a1| == VehicleCalls
    requires |s2| == |a2| == Calls(|points|) && |s3| == |a3| == Calls(|points|)
    requires WalkerCommands(Flatten(s2), points, walkerBlueprints, walkerDraw)
    requires Flatten(s3) == Map(ControllerFor, walkers)
    requires Paired(walkers) && WalkerIds(walkers) == AnswerIds(a2) && ControllerIds(walkers) == AnswerIds(a3)
    ensures WalkerLog(submitted, answered, points, walkerBlueprints, walkerDraw, walkers)
  {
    SlicesOfPrefix(s1, s2, s3, submitted);
    SlicesOfPrefix(a1, a2, a3, answered);
  }

  /** The three parts of a prefix can be read back by slicing. */
  lemma SlicesOfPrefix<T>(a: seq<T>, b: seq<T>, c: seq<T>, all: seq<T>)
    requires a + b + c <= all
    ensures |a| + |b| + |c| <= |all|
    ensures all[..|a|] == a && all[|a|..][..|b|] == b && all[|a|..][|b|..][..|c|] == c
  {
    assert all[..|a| + |b| + |c|] == a + b + c;
  }

  /** Controller commands depend only on the walkers' ids. */
  lemma SameControllers(walkers: seq<WalkerEntry>, paired: seq<WalkerEntry>)
    requires WalkerIds(walkers) == WalkerIds(paired)
    ensures Map(ControllerFor, walkers) == Map(ControllerFor, paired)
  {
    forall k | 0 <= k < |walkers| ensures Map(ControllerFor, walkers)[k] == Map(ControllerFor, paired)[k] {
      WalkerIdsIndex(walkers, k);
      WalkerIdsIndex(paired, k);
      MapIndex(ControllerFor, walkers, k);
      MapIndex(ControllerFor, paired, k);
    }
  }
}
