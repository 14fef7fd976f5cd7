# CARLA fleet and capture scripts in Dafny

This project models two CARLA client scripts and proves properties of them.

- `generateFreeDrivingLog.py` fills Town03 with actors while the recorder runs:
  - a hero Audi TT and 107 autopilot vehicles;
  - up to 60 pedestrians and one AI controller per pedestrian.

  It then destroys every actor it spawned. Spawning and destroying both go
  through `apply_batch_sync` in chunks of 9 commands: full chunks first, then
  one remainder chunk.
- `captureData.py` replays a recorded log once per line of a weather `.csv`
  file. It attaches the cameras listed in a `.cam` file to the ego vehicle and
  saves frames under `dir/<log name>/<weather values>/<camera>/`. At the end it
  cuts every camera directory to the smallest image count and renames the
  images `000000.png`, `000001.png`, …

Modules, one file each:

| file | module | models |
|---|---|---|
| `text.dfy` | `Text` | Python `str.split` / `join` on one separator character, negative indexing |
| `format.dfy` | `Format` | `%d`, `%06d` and `int()` truncation, with decimal parsing back |
| `lexorder.dfy` | `LexOrder` | Python string order and `os.listdir` followed by `sort()` |
| `chunking.dfy` | `Chunking` | the 9-slicing written out five times in the fleet script |
| `simulator.dfy` | `Simulator` | the client whose `apply_batch_sync` returns one response per command |
| `fleet.dfy` | `Fleet` | the fleet script: vehicle, walker, controller, id and destroy passes |
| `postprocess.dfy` | `PostProcess` | `postProcess`: the minimum image count and the renumber/remove pass |
| `capture.dfy` | `Capture` | `weatherHandler`, `getLogName`, `getLogTime`, `iSensor`, `sensor_handler`, the weather loop and `main` |

The simulator is a class `Simulator.Client`. It logs every batch it was sent
(`submitted`) and every answer (`answered`). Its answers come from a function
`respond(call index, position, command)` that is fixed when the client is
built, so every answer has exactly one response per command. Everything the
scripts learn from the outside world is a parameter:

- random draws;
- navigation locations, as an `Option`;
- the results of `float()` and `int()`;
- file contents;
- the recorder summary text;
- the directory tree.

## Model

| member | source | states |
|---|---|---|
| Text.Split | captureData.py:97-98 | `split` yields one more piece than there are separators, and no piece contains the separator |
| Text.JoinSplit | captureData.py:97 | joining the pieces of a split with the same separator gives back the original text |
| Text.SplitJoin | captureData.py:74 | splitting the join of separator-free pieces (at least one) gives back exactly those pieces |
| Text.SplitFirstPiece | captureData.py:148 | `split(sep)[0]` is a prefix of the text, followed by the separator or the end of the text |
| Text.SplitLastPiece | captureData.py:149-151 | the last piece of a split is a suffix of the text, preceded by the separator or the start of the text |
| Format.Decimal | captureData.py:251 | `%d` of a natural number is a non-empty string of digits with no leading zero |
| Format.DecimalRoundTrip | captureData.py:251 | reading the `%d` digits back gives the original number |
| Format.IntRoundTrip | captureData.py:251 | `%d` of any integer, sign included, reads back to that integer |
| Format.Trunc | captureData.py:251 | `int()` of a real truncates toward zero: below it for positive values, above it for negative values, off by less than 1 |
| Format.TruncWithin | captureData.py:251 | a value between two integer bounds truncates to an integer between the same bounds |
| Format.ZeroPad6RoundTrip | captureData.py:53 | `%06d` reads back to the frame number |
| Format.ZeroPad6 | captureData.py:53 | `%06d` gives at least six characters, all digits |
| Format.ZeroPad6Injective | captureData.py:53 | two frame numbers with the same `%06d` text are equal |
| Format.ZeroPad6Width | captureData.py:181 | `%06d` of a number below 10^6 is exactly six characters long |
| Format.ImageNameInjective | captureData.py:181 | two counters with the same `%06d.png` name are equal, so renamed images never collide |
| Format.ImageNameParts | captureData.py:181 | `%06d.png` is digits then `.png`, and the digits read back as the counter |
| LexOrder.LessTransitive | captureData.py:178 | Python string order is transitive |
| LexOrder.LessTotal | captureData.py:178 | of two different strings, one is smaller than the other |
| LexOrder.SortedNamesCorrect | captureData.py:177-178 | the sorted listing is strictly increasing and holds exactly the names of the directory |
| LexOrder.ListSorted | captureData.py:177-178 | the listing built by repeatedly taking the least remaining name is the sorted listing |
| Chunking.Chunks | generateFreeDrivingLog.py:135-149 | the number of chunks is `len // 9`, plus one when `len % 9 > 0` |
| Chunking.ChunksConcatenate | generateFreeDrivingLog.py:139-149 | the full chunks followed by the remainder chunk concatenate back to the input, in order |
| Chunking.ChunkLengths | generateFreeDrivingLog.py:139-149 | there are no chunks exactly when the input is empty; no chunk is empty or longer than 9; every chunk but the last has 9 elements |
| Chunking.ChunkCount | generateFreeDrivingLog.py:139-149 | the number of `apply_batch_sync` calls is ceil(M/9) |
| Chunking.ChunkElement | generateFreeDrivingLog.py:141-146 | element k of the input sits at position k mod 9 of chunk k div 9 |
| Chunking.ChunkPosition | generateFreeDrivingLog.py:141 | position r of chunk c is element 9c+r of the input, matching the slice bounds |
| Chunking.ChunksOfMap | generateFreeDrivingLog.py:292 | chunking the `DestroyActor` commands is the same as mapping each chunk of ids to commands |
| Simulator.Client.constructor | generateFreeDrivingLog.py:87 | a new client has been sent no batch |
| Simulator.Client.ApplyBatchSync | generateFreeDrivingLog.py:142 | one call logs the batch and answers with one response per command, determined by the call's index |
| Simulator.ApplyFullChunks | generateFreeDrivingLog.py:139-144 | the full-chunk loop sends chunks 0..M div 9 - 1, in order, and collects their answers |
| Simulator.ApplyInChunks | generateFreeDrivingLog.py:134-149 | the whole chunked pass sends exactly the chunks of the command list, in order, and keeps each answer |
| Simulator.ChunkedReplies | generateFreeDrivingLog.py:142-149 | the concatenated answers hold one response per command, and response k answers command k |
| Simulator.ReplyAt | generateFreeDrivingLog.py:141-144 | response r of call c answers command 9c+r |
| Simulator.MapReplies | generateFreeDrivingLog.py:143-149 | collecting a field of every response, in order, gives one value per command, aligned with the commands |
| Simulator.AnswerShape | generateFreeDrivingLog.py:139-149 | the answers to a chunked pass have the chunks' shape: full chunks of 9, then the remainder |
| Fleet.BlueprintCatalog.constructor | generateFreeDrivingLog.py:20-22 | the three module-level blueprint lists start empty |
| Fleet.BlueprintCatalog.MakeNightBlueprints | generateFreeDrivingLog.py:28-48 | appends the 8 car, 2 motorbike and 3 bicycle blueprints, in that order, to the lists |
| Fleet.Choice | generateFreeDrivingLog.py:51 | `random.choice` returns a member of the non-empty list |
| Fleet.BuildVehicleCommands | generateFreeDrivingLog.py:113-132 | fails exactly when there are fewer than 110 spawn points or a blueprint list is empty; otherwise 108 commands, the hero first at point 0, then cars, motorbikes and bicycles at their points |
| Fleet.VehicleSpawnLayout | generateFreeDrivingLog.py:127-132 | the vehicle list uses strictly increasing spawn points below 110 that skip 90 and 105, and uses every other point below 110 |
| Fleet.VehicleBatches | generateFreeDrivingLog.py:134-137 | 108 vehicle commands make 12 full chunks and no remainder |
| Fleet.SpawnVehicles | generateFreeDrivingLog.py:134-149 | the vehicle pass sends the chunks of the vehicle list and logs one answer per chunk; id k is the actor id of the response to command k |
| Fleet.CollectIds | generateFreeDrivingLog.py:139-149 | `spawnedVehicleIDs` is every response's `actor_id`, in submission order |
| Fleet.AnswerIdsReplies | generateFreeDrivingLog.py:139-149 | reading the `actor_id`s off the answers to a chunked pass gives the id answered to each command, in command order |
| Fleet.AppendIds | generateFreeDrivingLog.py:143-144 | one response loop appends each response's id, in order |
| Fleet.DrawOf | generateFreeDrivingLog.py:164-171 | each walker spawn point comes from a draw that returned a location, and carries that location |
| Fleet.NavigablePointsCount | generateFreeDrivingLog.py:165-171 | there are at most 60 walker spawn points, and exactly 60 when no draw returned None |
| Fleet.NavigablePointsOrdered | generateFreeDrivingLog.py:165-171 | the kept spawn points stay in draw order |
| Fleet.NavigablePoints | generateFreeDrivingLog.py:165-171 | at most one walker spawn point per draw |
| Fleet.CollectWalkerSpawnPoints | generateFreeDrivingLog.py:164-171 | the draw loop keeps the non-None locations, in draw order, and at most 60 of them |
| Fleet.BuildWalkerCommands | generateFreeDrivingLog.py:172-191 | one spawn command per spawn point, in order, with a chosen pedestrian blueprint; `random.choice` on an empty blueprint list fails |
| Fleet.FullChunkSpeeds | generateFreeDrivingLog.py:200-206 | the full-chunk loop appends 9 speed indices per chunk |
| Fleet.FullChunkSpeedsIndex | generateFreeDrivingLog.py:200-206 | in the full-chunk loop, walker k's speed is read at index k div 9, the chunk counter |
| Fleet.WalkerSpeedIndicesAgree | generateFreeDrivingLog.py:200-212 | `walker_speed2` has one entry per walker, and entry k is the index the source reads for walker k |
| Fleet.SpeedIndexInRange | generateFreeDrivingLog.py:200-212 | every speed index is in range exactly when there are no walkers or at least 9 |
| Fleet.SpawnWalkers | generateFreeDrivingLog.py:193-214 | the walker pass sends the chunks of the walker list; it raises IndexError exactly for 1 to 8 walkers; otherwise it keeps one entry and one speed index per walker, in order |
| Fleet.SpawnedIds | generateFreeDrivingLog.py:196-212 | the walker ids kept in `spawnedWalkerList` are the ids answered to the walker commands, in order |
| Fleet.CollectWalkers | generateFreeDrivingLog.py:196-212 | both the walker list and the speed list grow by one per response, so their lengths are equal; stated for both the full and the remainder chunks |
| Fleet.CollectFullChunkWalkers | generateFreeDrivingLog.py:200-206 | after the full chunks, the walkers are those chunks' responses, and `i` is the last chunk counter or the stale 59 |
| Fleet.AppendWalkers | generateFreeDrivingLog.py:207-212 | the remainder loop appends one walker and one speed index `i` per response, or fails on the first read past the speed list |
| Fleet.BuildControllerCommands | generateFreeDrivingLog.py:216-220 | one controller spawn command per walker, in order |
| Fleet.ControllerParents | generateFreeDrivingLog.py:219-220 | controller command k is parented to walker k |
| Fleet.SameControllers | generateFreeDrivingLog.py:219-220 | the controller commands depend only on the walkers' ids |
| Fleet.Attach | generateFreeDrivingLog.py:233 | setting `con` keeps the walker list's length |
| Fleet.AttachSnoc | generateFreeDrivingLog.py:233-234 | one more response sets `con` of the walker at `resultCounter` and changes nothing else |
| Fleet.PairControllers | generateFreeDrivingLog.py:223-240 | `resultCounter` ends at the number of responses, and walker k's `con` is the k-th controller response |
| Fleet.StoreControllers | generateFreeDrivingLog.py:232-234 | one response loop advances `resultCounter` by the batch size and pairs those walkers |
| Fleet.SpawnControllers | generateFreeDrivingLog.py:222-240 | the controller pass sends the chunks of the controller list, and walker k gets the id of the response to controller command k |
| Fleet.Interleaved | generateFreeDrivingLog.py:243-246 | `walkerIDList` is twice as long as the walker list |
| Fleet.InterleavedIndex | generateFreeDrivingLog.py:243-246 | `walkerIDList` is `[con0, id0, con1, id1, …]` |
| Fleet.InterleavedMultiset | generateFreeDrivingLog.py:243-246 | `walkerIDList` holds each walker id and each controller id once |
| Fleet.WalkerIds | generateFreeDrivingLog.py:243-246 | the walker ids, one per walker |
| Fleet.WalkerIdsIndex | generateFreeDrivingLog.py:243-246 | id k is walker k's id |
| Fleet.ControllerIds | generateFreeDrivingLog.py:247-249 | `controllerList` has one controller per walker |
| Fleet.ControllerIdsIndex | generateFreeDrivingLog.py:247-249 | controller k is walker k's `con` |
| Fleet.PairedIds | generateFreeDrivingLog.py:222-249 | pairing keeps the walker ids, and the controller ids are the ids answered to the controller commands |
| Fleet.CollectActorIds | generateFreeDrivingLog.py:242-249 | the two loops build the interleaved id list and the controllers in walker order |
| Fleet.DestroyActors | generateFreeDrivingLog.py:285-295 | a destroy pass sends one batch per chunk of ids, and batch c destroys exactly chunk c |
| Fleet.DestroyedIds | generateFreeDrivingLog.py:292 | the `DestroyActor` commands for a list of ids destroy exactly those ids, counted with multiplicity |
| Fleet.DestroyedSpawns | generateFreeDrivingLog.py:142 | spawn commands destroy nothing |
| Fleet.DestroyedChunks | generateFreeDrivingLog.py:289-295 | chunking does not change what a command list destroys |
| Fleet.ControllersSpawnOnly | generateFreeDrivingLog.py:220 | the controller list holds only spawn commands |
| Fleet.SpawnRunDestroysNothing | generateFreeDrivingLog.py:134-212 | the vehicle and walker passes destroy nothing |
| Fleet.CleanUpDestroys | generateFreeDrivingLog.py:285-312 | after the spawn passes and the two destroy passes, each id in the two id lists has been destroyed exactly once |
| Fleet.CleanUp | generateFreeDrivingLog.py:285-312 | the clean-up sends the vehicle destroy batches, then the walker and controller destroy batches, and only appends to the logs |
| Fleet.VehiclePass | generateFreeDrivingLog.py:111-149 | the vehicle section fails without a batch when there are fewer than 110 spawn points; otherwise it sends the vehicle list (hero first, then the drawn blueprints at their points) in chunks, and `spawnedVehicleIDs` is the `actor_id` answered to each command, in order |
| Fleet.WalkerPass | generateFreeDrivingLog.py:164-214 | the walker section sends one spawn command per spawn point, in chunks; it fails on `random.choice` or raises IndexError in exactly the cases above; otherwise walker k of `spawnedWalkerList` carries the id answered to walker command k |
| Fleet.ControllerPass | generateFreeDrivingLog.py:216-249 | the controller section sends one controller per walker in chunks, gives walker k the id answered to controller command k, and builds the interleaved id list |
| Fleet.ControllersAndCleanUp | generateFreeDrivingLog.py:216-312 | from the controllers to the end: the walker ids are kept, the controller ids are the ids answered to the controller commands, and every vehicle, walker and controller id is destroyed exactly once and nothing else is destroyed; after the controller batches the log holds exactly the vehicle destroy batches, then the interleaved walker and controller destroy batches, nine ids per batch |
| Fleet.GenerateFreeDrivingLog | generateFreeDrivingLog.py:87-312 | the script ends in exactly one of its outcomes; past the spawn-point check, the first 12 calls spawn the vehicle list and `spawnedVehicleIDs` is what they answered; a finished run then spawns the walkers and their controllers, and the walker and controller ids it keeps are what those calls answered; a run that stops early destroys nothing; a finished run destroys each of its vehicles, walkers and controllers exactly once, and after the spawn calls sends only the vehicle destroy batches, then the walker and controller destroy batches, in chunks of nine |
| Fleet.VehicleLogOf | generateFreeDrivingLog.py:134-149 | a vehicle pass at the head of the logs is what the first 12 calls hold |
| Fleet.VehicleRunLog | generateFreeDrivingLog.py:111-149 | after the vehicle pass, the first 12 calls spawn the vehicle list and answer the kept vehicle ids, whatever is logged after them |
| Fleet.WalkerLogOf | generateFreeDrivingLog.py:193-240 | walker and controller passes right after the vehicle pass are what the calls after the first 12 hold |
| Fleet.CleanUpLog | generateFreeDrivingLog.py:285-312 | after the vehicle, walker and controller calls, a finished run's log holds only the vehicle destroy chunks and then the interleaved walker and controller destroy chunks |
| Fleet.RecordedRunLog | generateFreeDrivingLog.py:134-249 | a finished run's logs hold the vehicle pass, then the walker pass, then the controller pass, and the kept ids are what each pass answered |
| Capture.WeatherHandlerAccepts | captureData.py:96-132 | a line without exactly five commas is rejected; a line is accepted exactly when it has six fields all in range, and the result carries those values |
| Capture.WeatherHandler | captureData.py:96-132 | a line that does not split into six fields is rejected, and an accepted weather is within every range |
| Capture.WeatherLine | captureData.py:96-132 | six comma-free fields joined by commas are accepted exactly when their values are in range |
| Capture.AcceptedValues | captureData.py:101-124 | the `%d` values of an accepted weather are 0..100 for the first four fields, 0..360 for azimuth and -90..90 for altitude |
| Capture.IntDecimalText | captureData.py:251 | a `%d` field is integer text that reads back to its value, with no `/` or `_` in it |
| Capture.WeatherDirName | captureData.py:251 | the six `%d` fields hold no `/` and no `_`, so joined by `_` they make one path component |
| Capture.DirPrefix | captureData.py:251 | `dirprefix` is `logFileName/` followed by a name without `/`: one directory inside the log's folder |
| Capture.DirPrefixDecode | captureData.py:251 | `dirprefix` splits into the log name and six `_`-separated fields that read back to the `%d` weather values |
| Capture.DirPrefixInjective | captureData.py:251 | two weathers share a `dirprefix` exactly when their `%d` values agree |
| Capture.GetLogNameChars | captureData.py:147-152 | the log name contains no `/` and no `.` |
| Capture.GetLogNameParts | captureData.py:147-152 | the log name is the last `/` component of the text before the first `.` |
| Capture.GetLogNameOfPath | captureData.py:147-152 | a path `d1/…/dn/name.ext` gives `name`, e.g. `/home/jack/Carla/Town03.log` gives `Town03` |
| Capture.LogNameRelativePath | captureData.py:148 | `./Town03.log` gives the empty name, because its first `.` comes first |
| Capture.LogTimeWithoutToken | captureData.py:140-145 | a summary without a space has no duration; a one-line summary has one exactly when it contains a space |
| Capture.LogTimeOfDurationLine | captureData.py:140-145 | when the second-to-last line is `heading t unit`, the log time is `float(t)` |
| Capture.SecondToLastLine | captureData.py:141-143 | the log time is read from the second-to-last line of the summary |
| Capture.DurationToken | captureData.py:143-144 | the duration is the second space-separated token |
| Capture.ImagePathFrame | captureData.py:53 | the saved file name is the frame number in `%06d` followed by `.png`, and its digits read back to the frame |
| Capture.ImagePathInjective | captureData.py:53 | different frames of one camera are saved under different paths |
| Capture.Sensor.constructor | captureData.py:27-31 | a new sensor has position and yaw 0 and no directory |
| Capture.Sensor.SetMetaParams | captureData.py:33-34 | sets the directory to `path/name` and leaves the parameters alone |
| Capture.Sensor.SetParams | captureData.py:36-40 | sets x, y, z and yaw and leaves the directory alone |
| Capture.CamLineRoundTrip | captureData.py:72-82 | a non-comment line of five space-separated fields is read as one camera with those values |
| Capture.CamLinesFail | captureData.py:71-79 | reading the `.cam` file fails exactly when some line is malformed |
| Capture.CamLines | captureData.py:71-85 | at most one camera per line of the `.cam` file |
| Capture.CamLinesSnoc | captureData.py:71-85 | the file is read line by line, in order |
| Capture.CamLinesSkipComment | captureData.py:72-73 | a `#` line can be removed without changing the result |
| Capture.SensorHandler | captureData.py:65-88 | no sensors for a missing file; an error exactly when a line is malformed; otherwise one configured sensor per camera line, in file order, with directory `dirprefix/name` |
| Capture.MalformedLine | captureData.py:75-79 | one malformed line makes the whole `.cam` file fail |
| Capture.AcceptedWeathersPrefix | captureData.py:246-250 | the accepted weathers are the handler's results for the leading lines, and the line after them is rejected |
| Capture.AcceptedWeathersUnique | captureData.py:246-250 | any run of accepted lines that ends at a rejected line or at the end of the file is the accepted prefix |
| Capture.WeatherLoop | captureData.py:246-271 | each accepted line is replayed under its `dirprefix`, in order; the loop stops at the first rejected line, or after the first run when the `.cam` file is missing or malformed |
| Capture.Replay | captureData.py:251-265 | one run saves under the weather's `dirprefix`, and its cameras are attached exactly when the `.cam` file reads |
| Capture.CaptureData | captureData.py:236-274 | `main` fails on the recorder summary or a missing weather file, replaying nothing; otherwise it replays each accepted weather under its `dirprefix`, in order, or only the first when the `.cam` file is missing or malformed; post-processing runs exactly when every weather line is replayed; otherwise the image tree is untouched |
| PostProcess.PlanUpTo | captureData.py:180-188 | the first i steps of the pass issue one file operation per image, step k being the one for image k |
| PostProcess.Plan | captureData.py:180-188 | one file operation per image of the sorted listing: image k is renamed to `%06d.png` of k while k < `minImages`, and removed after that |
| PostProcess.RenumberDir | captureData.py:177-188 | the loop over the sorted listing issues the renumbering plan, and the directory ends as that plan leaves it |
| PostProcess.FirstImagesMember | captureData.py:181 | the names `%06d.png` for counters below n are exactly the new names |
| PostProcess.FirstImagesCount | captureData.py:181-185 | there are n such names |
| PostProcess.PlanStep | captureData.py:184-187 | one step renames the image to the next counter name, or removes it once the counter reaches `minImages` |
| PostProcess.PlanPrefix | captureData.py:180-188 | after i steps, the directory holds the first min(i, `minImages`) counter names and the images not yet visited |
| PostProcess.PlanIndex | captureData.py:180-188 | step k of the plan is the operation for the k-th image |
| PostProcess.RenumberResult | captureData.py:177-188 | when no rename overwrites an image not yet visited, the directory ends with exactly the first min(count, `minImages`) counter names |
| PostProcess.DigitsOrder | captureData.py:178 | for digit strings of equal length with a common suffix, string order is numeric order |
| PostProcess.ImageNameOrder | captureData.py:178-181 | below 10^6, `sort()` orders `%06d.png` names by frame number |
| PostProcess.FramesIncrease | captureData.py:177-178 | the frames of a sorted listing of frame-named images strictly increase |
| PostProcess.FrameNamedNoClobber | captureData.py:177-185 | in a directory of frame-named images, the sorted listing has no duplicates and no rename overwrites an image not yet visited |
| PostProcess.SortedNamesDistinct | captureData.py:177-178 | the sorted listing names no file twice |
| PostProcess.SortedNamesAsSet | captureData.py:177-178 | the sorted listing holds exactly the directory's names |
| PostProcess.FrameDirRenumbered | captureData.py:177-188 | a directory with at least `minImages` images, where no rename lands on an image not yet visited, ends holding `000000.png` … `minImages-1`, exactly `minImages` files |
| PostProcess.LongFrameOrder | captureData.py:53 | from frame 10^6 on, `%06d` writes seven digits and `sort()` puts frame 1000000 before frame 999999 |
| PostProcess.MinOf | captureData.py:172 | `min` returns an element of the list that is no larger than any other |
| PostProcess.AppendCounts | captureData.py:166-170 | the inner loop appends the image count of every sensor directory of a folder to `imageLengthList` |
| PostProcess.MinImageCount | captureData.py:162-172 | `min` fails exactly when there is no sensor directory; otherwise the result is the smallest image count of any sensor directory |
| PostProcess.RenumberFolder | captureData.py:173-188 | every sensor directory of a folder is renumbered to `minImages` |
| PostProcess.RenumberTree | captureData.py:173-188 | the loop over the weather folders renumbers every folder's sensor directories to `minImages` |
| PostProcess.FileTree.constructor | captureData.py:160-163 | the tree holds the given folders |
| PostProcess.FileTree.PostProcess | captureData.py:160-188 | fails and leaves the tree untouched when there is no sensor directory; otherwise it renumbers every sensor directory to the minimum count |
| PostProcess.PostProcessedTree | captureData.py:160-188 | afterwards, every sensor directory whose sorted listing has no rename onto an image not yet visited holds exactly the first `minImages` counter names |
| PostProcess.ClobberListing | captureData.py:177-178 | `0.png` sorts before `000000.png` |
| PostProcess.ClobberExample | captureData.py:180-187 | a directory holding `0.png` and `000000.png` ends with the single file `000001.png`: the first rename overwrites the second image |

## Left out

- The `carla` library is not modelled beyond `apply_batch_sync`. This covers
  `load_world`, `spawn_actor` and `attach_to_car`, controller `start`, `stop`,
  `go_to_location` and `set_max_speed`, `replay_file`, `set_weather`,
  `apply_settings`, `get_actors`, `wait_for_tick`, the recorder calls and
  `show_recorder_file_info`. These are a foreign library. The recorder summary
  text is a parameter.
- `time.sleep` and the recorder duration loop are timing, not logic.
- The sensor `listen` callbacks and `save_to_disk` are not modelled. They run
  on simulator threads. Only the path they save to is modelled.
- Randomness is taken as parameters:
  - `random.shuffle` of the spawn points: the parameter is the list after
    shuffling;
  - `random.choice`: draws give the index;
  - `random.random`;
  - `get_random_location_from_navigation`: an `Option`-valued draw.
- `float()` and `int()` on strings are oracle parameters. Their `ValueError` is
  not modelled. Weather values are exact reals, not CARLA's 32-bit floats.
- The file system is a map from names to name sets. Existence checks are
  `Option`s. `os.listdir` order is left open, except where the source sorts it.
  The folder and sensor loops of `postProcess` visit the map's keys in an
  arbitrary order.
- The hero `driver_id` branch (generateFreeDrivingLog.py:122-124) is not
  modelled. It reads an undefined `blueprint`, and the Audi TT blueprint has
  no such attribute.
- The `lineCounter` argument of `weatherHandler` is not modelled, nor the
  messages it prints.
- Argument parsing and `spawn_audi_autopilot.py` are not modelled.
- The walker speed values are not modelled. Speeds are read by chunk counter,
  and by `int(i/2)` at generateFreeDrivingLog.py:265.
- Fleet.SpawnWalkers: models `walker_speed2` only as the indices read from
  `walker_speed`, not the speed values, because the values come from
  blueprint attributes and random draws.
- Fleet.CollectWalkers: the same as Fleet.SpawnWalkers, for the speed list.
- Capture.WeatherHandlerAccepts: `float()` results are modelled as reals, so
  NaN is not covered. In the source a `nan` field passes every range check at
  captureData.py:107-124, since each comparison with NaN is false. `'%d' % nan`
  then raises ValueError at captureData.py:251. In the model an accepted
  weather is always within range.
- Capture.WeatherHandler: the same as Capture.WeatherHandlerAccepts, for NaN
  fields.
- Capture.SensorHandler: a line with other than five fields is modelled as the
  error result. In the source it raises NameError on the undefined
  `linecounter`. The yaw check after it is never reached, so it is not
  modelled.
- PostProcess.RenumberResult: proved only for listings where no rename
  overwrites an image not yet visited. PostProcess.ClobberExample shows that
  the source can otherwise end with fewer files.
- PostProcess.FrameDirRenumbered: proved only for directories where no rename
  of the sorted pass lands on an image not yet visited, because
  PostProcess.ClobberExample shows the source otherwise loses files.
  PostProcess.FrameNamedNoClobber shows the condition holds when every name is
  a `%06d.png` frame name below 10^6. Nothing in the source bounds the frame
  number written at captureData.py:53.
- PostProcess.PostProcessedTree: the same condition as
  PostProcess.FrameDirRenumbered, for each sensor directory of the tree.
- PostProcess.FrameNamedNoClobber: covers frame names below 10^6 only. When a
  run's frames cross 10^6, `sort()` puts `1000000.png` before `999999.png`
  (PostProcess.LongFrameOrder). The renumbering then follows string order,
  not frame order, and the model does not state which condition keeps such a
  directory free of overwrites.
- PostProcess.ImageNameOrder: covers frames below 10^6 only. Above that, names
  are longer than six digits, and string order no longer follows frame order.
