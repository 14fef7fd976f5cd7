/** The part of the CARLA client the fleet script drives: batch commands and
    `apply_batch_sync`, whose answers come from the simulator. */
module Simulator {
  import opened Text
  import opened Chunking

  /** CARLA actor ids; a failed spawn answers with id 0. */
  type ActorId = int

  datatype Location = Location(x: real, y: real, z: real)
  datatype Rotation = Rotation(pitch: real, yaw: real, roll: real)
  datatype Transform = Transform(location: Location, rotation: Rotation)

  /** `carla.Transform()`: origin, no rotation. */
  const DefaultTransform := Transform(Location(0.0, 0.0, 0.0), Rotation(0.0, 0.0, 0.0))

  datatype Command =
      /** `SpawnActor(bp, t).then(SetAutopilot(FutureActor, True))`; `role` is
          the blueprint's `role_name` when the script sets one. */
    | SpawnVehicle(blueprint: string, role: Option<string>, at: Transform)
      /** `SpawnActor(bp, t)` for a pedestrian. */
    | SpawnWalker(blueprint: string, at: Transform)
      /** `SpawnActor(bp, t, parent)`: an AI controller attached to `parent`. */
    | SpawnController(blueprint: string, at: Transform, parent: ActorId)
      /** `carla.command.DestroyActor(id)`. */
    | DestroyActor(actor: ActorId)

  /** One `command.Response`: the script reads only `actor_id`, never `error`. */
  datatype Response = Response(actorId: ActorId, error: string)

  /** The client connection. `respond` stands for the simulator: the answer
      to command `i` of the `n`-th batch is `respond(n, i, command)`. */
  class Client {
    const respond: (nat, nat, Command) -> Response
    /** Every batch passed to `apply_batch_sync`, in call order. */
    var submitted: seq<seq<Command>>
    /** The responses each of those calls returned. */
    var answered: seq<seq<Response>>

    /** Every call so far got the simulator's answer to its batch. */
    ghost predicate Valid()
      reads this
    {
      |answered| == |submitted|
    }

    constructor (respond: (nat, nat, Command) -> Response)
      ensures Valid() && this.respond == respond
      ensures submitted == [] && answered == []
    {
      this.respond := respond;
      submitted, answered := [], [];
    }

    /** `client.apply_batch_sync(batch)`: one response per command, in order. */
    method ApplyBatchSync(batch: seq<Command>) returns (responses: seq<Response>)
      requires Valid()
      modifies this
      ensures Valid()
      ensures responses == Answer(respond, old(|submitted|), batch)
      ensures submitted == old(submitted) + [batch] && answered == old(answered) + [responses]
    {
      responses := Answer(respond, |submitted|, batch);
      AnswersToAppend(respond, 0, submitted, batch);
      submitted := submitted + [batch];
      answered := answered + [responses];
    }
  }

  /** The simulator's answer to `batch` sent as call number `n`: one
      response per command, in order. */
  function Answer(respond: (nat, nat, Command) -> Response, n: nat, batch: seq<Command>): (responses: seq<Response>)
    ensures |responses| == |batch|
  {
    seq(|batch|, i requires 0 <= i < |batch| => respond(n, i, batch[i]))
  }

  /** The answers to `batches` sent one after the other from call `base` on. */
  function AnswersTo(respond: (nat, nat, Command) -> Response, base: nat, batches: seq<seq<Command>>): (r: seq<seq<Response>>)
    ensures |r| == |batches|
  {
    if batches == [] then []
    else AnswersTo(respond, base, batches[..|batches| - 1])
         + [Answer(respond, base + |batches| - 1, batches[|batches| - 1])]
  }

  /** Call `base + c` answers batch c. */
  lemma {:induction false} AnswersToIndex(respond: (nat, nat, Command) -> Response, base: nat,
                                          batches: seq<seq<Command>>, c: nat)
    requires c < |batches|
    ensures AnswersTo(respond, base, batches)[c] == Answer(respond, base + c, batches[c])
  {
    if c < |batches| - 1 {
      AnswersToIndex(respond, base, batches[..|batches| - 1], c);
    }
  }

  /** Answers given call by call are the answers to the batches. */
  lemma {:induction false} AnswersToEach(respond: (nat, nat, Command) -> Response, base: nat,
                                         batches: seq<seq<Command>>, answers: seq<seq<Response>>)
    requires |answers| == |batches|
    requires forall c :: 0 <= c < |batches| ==> answers[c] == Answer(respond, base + c, batches[c])
    ensures answers == AnswersTo(respond, base, batches)
  {
    if batches != [] {
      var n := |batches| - 1;
      AnswersToEach(respond, base, batches[..n], answers[..n]);
      assert answers == answers[..n] + [answers[n]];
    }
  }

  /** Sending one more batch appends its answer. */
  lemma AnswersToAppend(respond: (nat, nat, Command) -> Response, base: nat,
                        batches: seq<seq<Command>>, batch: seq<Command>)
    ensures AnswersTo(respond, base, batches + [batch])
         == AnswersTo(respond, base, batches) + [Answer(respond, base + |batches|, batch)]
  {
    assert (batches + [batch])[..|batches|] == batches;
  }

  /** The answer to the k-th of `commands` when they go out in chunks of
      nine starting with call number `base`: call `base + k div 9`,
      position `k mod 9`. */
  function Reply(respond: (nat, nat, Command) -> Response, base: nat, commands: seq<Command>, k: nat): Response
    requires k < |commands|
  {
    respond(base + k / ChunkSize, k % ChunkSize, commands[k])
  }

  /** The first half of the chunked submission: `numFullChunks` calls with
      nine commands each. */
  method ApplyFullChunks(client: Client, commands: seq<Command>) returns (batches: seq<seq<Response>>)
    requires client.Valid()
    modifies client
    ensures client.Valid()
    ensures client.submitted == old(client.submitted) + Chunks(commands)[..|commands| / ChunkSize]
    ensures client.answered == old(client.answered) + batches
    ensures |batches| == |commands| / ChunkSize
    ensures forall c :: 0 <= c < |batches| ==>
      batches[c] == Answer(client.respond, old(|client.submitted|) + c, Chunks(commands)[c])
  {
    var numFullChunks := |commands| / ChunkSize;
    ghost var chunks := Chunks(commands);
    ghost var base := |client.submitted|;
    batches := [];
    if numFullChunks > 0 {
      for i := 0 to numFullChunks
        invariant client.Valid()
        invariant client.submitted == old(client.submitted) + chunks[..i]
        invariant client.answered == old(client.answered) + batches
        invariant |batches| == i
        invariant forall c :: 0 <= c < i ==> batches[c] == Answer(client.respond, base + c, chunks[c])
      {
        var chunk := commands[ChunkSize * i .. ChunkSize * i + ChunkSize];
        assert chunk == chunks[i];
        var batchResponse := client.ApplyBatchSync(chunk);
        batches := batches + [batchResponse];
        assert chunks[..i + 1] == chunks[..i] + [chunks[i]];
      }
    }
  }

  /** The chunked submission: `numFullChunks` calls with nine commands each,
      then one call with the remainder when it is not empty. Returns each
      call's responses. */
  method ApplyInChunks(client: Client, commands: seq<Command>) returns (batches: seq<seq<Response>>)
    requires client.Valid()
    modifies client
    ensures client.Valid()
    ensures client.submitted == old(client.submitted) + Chunks(commands)
    ensures client.answered == old(client.answered) + batches
    ensures batches == AnswersTo(client.respond, old(|client.submitted|), Chunks(commands))
  {
    var numFullChunks := |commands| / ChunkSize;
    var chunkRemainder := |commands| % ChunkSize;
    ghost var chunks := Chunks(commands);
    ghost var base := |client.submitted|;
    batches := ApplyFullChunks(client, commands);
    if chunkRemainder > 0 {
      var chunk := commands[ChunkSize * numFullChunks .. ChunkSize * numFullChunks + chunkRemainder];
      assert chunk == chunks[numFullChunks];
      var batchResponse := client.ApplyBatchSync(chunk);
      batches := batches + [batchResponse];
      assert chunks == chunks[..numFullChunks] + [chunks[numFullChunks]];
    } else {
      assert chunks == chunks[..numFullChunks];
    }
    AnswersToEach(client.respond, base, chunks, batches);
  }

  /** `batches` has the shape of the answers to `n` commands sent in
      chunks: `numFullChunks` lists of nine, then one list of
      `chunkRemainder` when that is not zero. */
  predicate ChunkShaped<T>(n: nat, batches: seq<seq<T>>)
  {
    && |batches| == n / ChunkSize + (if n % ChunkSize > 0 then 1 else 0)
    && (forall c :: 0 <= c < n / ChunkSize ==> |batches[c]| == ChunkSize)
    && (n % ChunkSize > 0 ==> |batches[n / ChunkSize]| == n % ChunkSize)
  }

  /** The simulator answers every chunk with one response per command. */
  lemma AnswerShape(respond: (nat, nat, Command) -> Response, base: nat, commands: seq<Command>)
    ensures ChunkShaped(|commands|, AnswersTo(respond, base, Chunks(commands)))
  {
    var chunks := Chunks(commands);
    ChunkLengths(commands);
    forall c | 0 <= c < |chunks| ensures |AnswersTo(respond, base, chunks)[c]| == |chunks[c]| {
      AnswersToIndex(respond, base, chunks, c);
    }
    if |commands| % ChunkSize > 0 {
      assert |chunks[|commands| / ChunkSize]| == |commands| % ChunkSize;
    }
  }

  /** Per-call answers to the chunks, flattened, answer the commands in order. */
  lemma ChunkedReplies(respond: (nat, nat, Command) -> Response, base: nat, commands: seq<Command>,
                       batches: seq<seq<Response>>)
    requires batches == AnswersTo(respond, base, Chunks(commands))
    ensures |Flatten(batches)| == |commands|
    ensures forall k :: 0 <= k < |commands| ==> Flatten(batches)[k] == Reply(respond, base, commands, k)
  {
    var chunks := Chunks(commands);
    forall c | 0 <= c < |batches|
      ensures batches[c] == Answer(respond, base + c, chunks[c]) && |batches[c]| == |chunks[c]|
    {
      AnswersToIndex(respond, base, chunks, c);
    }
    assert |Flatten(batches)| == |commands| by {
      FlattenSameShape(batches, chunks);
      ChunksConcatenate(commands);
    }
    assert forall c :: 0 <= c < |batches| ==> |batches[c]| <= ChunkSize by {
      ChunkLengths(commands);
    }
    assert forall c :: 0 <= c < |batches| - 1 ==> |batches[c]| == ChunkSize by {
      ChunkLengths(commands);
    }
    forall k | 0 <= k < |commands|
      ensures Flatten(batches)[k] == Reply(respond, base, commands, k)
    {
      var c, r := k / ChunkSize, k % ChunkSize;
      assert c < |batches| && r < |batches[c]| && Flatten(batches)[k] == batches[c][r] by {
        FlattenIndex(batches, k);
      }
      assert chunks[c][r] == commands[k] by {
        ChunkElement(commands, k);
      }
    }
  }

  /** Response r of call c of a chunked submission answers command `9c + r`. */
  lemma ReplyAt(respond: (nat, nat, Command) -> Response, base: nat, commands: seq<Command>, c: nat, r: nat)
    requires c < |Chunks(commands)| && r < |Chunks(commands)[c]|
    ensures ChunkSize * c + r < |commands|
    ensures AnswersTo(respond, base, Chunks(commands))[c] == Answer(respond, base + c, Chunks(commands)[c])
    ensures AnswersTo(respond, base, Chunks(commands))[c][r] == Reply(respond, base, commands, ChunkSize * c + r)
  {
    ChunkPosition(commands, c, r);
    AnswersToIndex(respond, base, Chunks(commands), c);
  }

  /** Any per-response value, collected over the flattened answers of a
      chunked submission, is that value of the reply to each command. */
  lemma MapReplies<T>(f: Response -> T, respond: (nat, nat, Command) -> Response, base: nat,
                      commands: seq<Command>, batches: seq<seq<Response>>)
    requires batches == AnswersTo(respond, base, Chunks(commands))
    ensures |Map(f, Flatten(batches))| == |commands|
    ensures forall k :: 0 <= k < |commands| ==> Map(f, Flatten(batches))[k] == f(Reply(respond, base, commands, k))
  {
    ChunkedReplies(respond, base, commands, batches);
    forall k | 0 <= k < |commands| ensures Map(f, Flatten(batches))[k] == f(Reply(respond, base, commands, k)) {
      MapIndex(f, Flatten(batches), k);
    }
  }
}
