/** The client's upload loop (services/test/file/fileclient/fileclient.cpp) while the
    service also serves everybody else: between two of its turns there may be any number of
    other uploads, completions and images, from any state that earlier processes left. */
module InterleavedClient {
  import opened Base
  import opened FileTransfer
  import FileClient

  /** The client's variables, and the world it shares. */
  datatype Session = Session(world: World, position: int, fileId: string, uploadId: string, count: int, refused: bool)

  datatype Move = Turn(env: UploadEnv) | Other(event: Event)

  function Begin(w: World): Session {
    Session(w, 0, "", "", 0, false)
  }

  predicate Over(content: string, x: Session) {
    x.refused || ToSize(x.position) >= |content|
  }

  function TurnReq(hash: string -> string, content: string, x: Session): UploadReq
    requires !Over(content, x)
  {
    FileClient.ChunkReq(hash, |content|, FileClient.TurnData(content, x.position), x.fileId, x.uploadId, x.count)
  }

  function Step(hash: string -> string, content: string, x: Session, m: Move): Session {
    match m
    case Other(e) => x.(world := Next(hash, x.world, e))
    case Turn(env) =>
      if Over(content, x) then x
      else
        var req, end := TurnReq(hash, content, x), FileClient.IntAdvance(|content|, x.position);
        var rsp, w := Upload(hash, x.world.server, req, env).1, Next(hash, x.world, Send(req, env));
        if rsp.code != OK then x.(world := w, position := end, refused := true)
        else Session(w, end, rsp.fileId, rsp.uploadId, ToInt32(x.count + 1), false)
  }

  /** Draws and paths are new, everybody else pairs upload id and file id, and nobody else
      sends chunks under this client's upload id. That this client pairs them is a result. */
  ghost predicate Allowed(hash: string -> string, content: string, x: Session, m: Move) {
    match m
    case Other(e) =>
      && Admissible(hash, x.world, e)
      && (e.Send? && e.req.fileId != "" && x.fileId != "" ==> e.req.uploadId != x.uploadId)
    case Turn(env) =>
      !Over(content, x) && DrawsIds(hash, TurnReq(hash, content, x), env) ==> FreshDraws(x.world, env)
  }

  ghost predicate AllAllowed(hash: string -> string, content: string, x: Session, moves: seq<Move>)
    decreases |moves|
  {
    moves == []
    || (Allowed(hash, content, x, moves[0]) && AllAllowed(hash, content, Step(hash, content, x, moves[0]), moves[1..]))
  }

  function Play(hash: string -> string, content: string, x: Session, moves: seq<Move>): Session
    decreases |moves|
  {
    if moves == [] then x else Play(hash, content, Step(hash, content, x, moves[0]), moves[1..])
  }

  // -------------------------------------------------------------------- the invariant

  /** Nothing has been sent yet. */
  ghost predicate Unsent(x: Session) {
    x.fileId == "" && x.position == 0 && x.count == 0
  }

  /** The upload has accepted exactly the content up to the position, in as many chunks as
      lead there. */
  ghost predicate Accepted(content: string, x: Session) {
    && x.fileId != "" && x.uploadId in x.world.ledger
    && var ticket := x.world.ledger[x.uploadId];
       && ticket.fileId == x.fileId
       && 0 <= x.position <= |content| && x.position == FileClient.Position(|content|, |ticket.chunks|)
       && x.count == ToInt32(|ticket.chunks|)
       && Bytes(ticket.chunks) == content[..x.position]
  }

  ghost predicate Inv(content: string, x: Session) {
    Consistent(x.world) && (x.refused || Unsent(x) || Accepted(content, x))
  }

  /** Other requests leave the client's ticket as it is. */
  lemma OtherKeepsTicket(hash: string -> string, w: World, e: Event, u: string)
    requires Consistent(w) && Admissible(hash, w, e) && u in w.ledger
    requires e.Send? && e.req.fileId != "" ==> e.req.uploadId != u
    ensures u in Next(hash, w, e).ledger && Next(hash, w, e).ledger[u] == w.ledger[u]
  {
    hide Consistent, Admissible, Upload, Complete, StoreImage;
    if e.Send? {
      OthersUntouched(hash, w, e.req, e.env, u);
    }
  }

  lemma OtherInv(hash: string -> string, content: string, x: Session, e: Event)
    requires Inv(content, x) && Allowed(hash, content, x, Other(e))
    ensures Inv(content, Step(hash, content, x, Other(e)))
  {
    hide Consistent, Admissible, Next, Bytes;
    StepConsistent(hash, x.world, e);
    if !x.refused && !Unsent(x) {
      OtherKeepsTicket(hash, x.world, e, x.uploadId);
    }
  }

  /** The ledger after an accepted chunk, and what the reply says. */
  lemma FirstRecorded(hash: string -> string, w: World, req: UploadReq, env: UploadEnv)
    requires req.fileId == "" && Upload(hash, w.server, req, env).1.code == OK
    ensures var rsp, w' := Upload(hash, w.server, req, env).1, Next(hash, w, Send(req, env));
            && DrawsIds(hash, req, env) && rsp.fileId == env.fileId && rsp.uploadId in w'.ledger
            && w'.ledger[rsp.uploadId] == Ticket(env.fileId, env.path, [Chunk(req.chunkIndex, req.data, req.md5)])
  {
    hide ToInt32, ToSize;
  }

  lemma AppendRecorded(hash: string -> string, w: World, req: UploadReq, env: UploadEnv)
    requires req.fileId != "" && Upload(hash, w.server, req, env).1.code == OK && req.uploadId in w.ledger
    ensures var rsp, w' := Upload(hash, w.server, req, env).1, Next(hash, w, Send(req, env));
            && rsp.fileId == req.fileId && rsp.uploadId == req.uploadId && req.uploadId in w'.ledger
            && var chunks := w.ledger[req.uploadId].chunks + [Chunk(req.chunkIndex, req.data, req.md5)];
               w'.ledger[req.uploadId] == w.ledger[req.uploadId].(chunks := chunks)
  {
    hide ToInt32, ToSize;
  }

  /** What a turn at an exact position sends, and where it leads. */
  lemma TurnExact(content: string, i: nat, k: nat)
    requires FileClient.FitsInt(|content|) && i < |content| && i == FileClient.Position(|content|, k)
    ensures ToSize(i) == i
    ensures var end := FileClient.IntAdvance(|content|, i);
            && i <= end <= |content| && end == FileClient.Position(|content|, k + 1)
            && FileClient.TurnData(content, i) == content[i..end]
            && content[..i] + content[i..end] == content[..end]
  {
    hide *;
    FileClient.SizeFits(|content|);
    FileClient.TurnFits(|content|, k);
    FileClient.PositionUnfold(|content|, k + 1);
    FileClient.TurnDataExact(content, i);
    var end := FileClient.IntAdvance(|content|, i);
    assert content[..i] + content[i..end] == content[..end];
  }

  lemma OneChunk(index: int, data: string, md5: string)
    ensures Bytes([Chunk(index, data, md5)]) == data
  {
    assert Bytes([]) == "";
  }

  lemma CountGrows(count: int, k: nat)
    requires count == ToInt32(k)
    ensures ToInt32(count + 1) == ToInt32(k + 1)
  {
    ToInt32Add(k, 1);
  }

  /** The first turn. */
  lemma FirstTurnInv(hash: string -> string, content: string, x: Session, env: UploadEnv)
    requires FileClient.FitsInt(|content|) && Consistent(x.world) && Unsent(x) && !Over(content, x)
    requires Allowed(hash, content, x, Turn(env))
    requires Upload(hash, x.world.server, TurnReq(hash, content, x), env).1.code == OK
    ensures Accepted(content, Step(hash, content, x, Turn(env)))
  {
    hide Consistent, Upload, Next, Admissible, Bytes, ToInt32,
        FileClient.IntAdvance, FileClient.TurnData, FileClient.FitsInt;
    var req := TurnReq(hash, content, x);
    FirstRecorded(hash, x.world, req, env);
    TurnExact(content, 0, 0);
    OneChunk(req.chunkIndex, req.data, req.md5);
    CountGrows(0, 0);
  }

  /** A later turn: the client sends the file id that was issued with its upload id. */
  lemma LaterTurnInv(hash: string -> string, content: string, x: Session, env: UploadEnv)
    requires FileClient.FitsInt(|content|) && Accepted(content, x) && !Over(content, x)
    requires Upload(hash, x.world.server, TurnReq(hash, content, x), env).1.code == OK
    ensures Accepted(content, Step(hash, content, x, Turn(env)))
  {
    hide Consistent, Upload, Next, Admissible, Bytes, ToInt32,
        FileClient.IntAdvance, FileClient.TurnData, FileClient.FitsInt,
         FileClient.Position;
    var req, chunks := TurnReq(hash, content, x), x.world.ledger[x.uploadId].chunks;
    AppendRecorded(hash, x.world, req, env);
    CountGrows(x.count, |chunks|);
    SizeBelow(content, x.position);
    TurnExact(content, x.position, |chunks|);
    BytesSnoc(chunks, Chunk(req.chunkIndex, req.data, req.md5));
  }

  lemma SizeBelow(content: string, i: int)
    requires FileClient.FitsInt(|content|) && 0 <= i <= |content|
    ensures ToSize(i) == i
  {
    FileClient.SizeFits(|content|);
  }

  lemma TurnInv(hash: string -> string, content: string, x: Session, env: UploadEnv)
    requires FileClient.FitsInt(|content|) && Inv(content, x) && Allowed(hash, content, x, Turn(env))
    ensures Inv(content, Step(hash, content, x, Turn(env)))
  {
    hide Consistent, Upload, Next, Bytes, ToInt32, ToSize, FreshDraws, FileClient.IntAdvance, FileClient.TurnData,
         FileClient.FitsInt, FileClient.Position;
    if !Over(content, x) {
      StepConsistent(hash, x.world, Send(TurnReq(hash, content, x), env));
      if Upload(hash, x.world.server, TurnReq(hash, content, x), env).1.code == OK {
        if Unsent(x) {
          FirstTurnInv(hash, content, x, env);
        } else {
          LaterTurnInv(hash, content, x, env);
        }
      }
    }
  }

  lemma {:induction false} PlayInv(hash: string -> string, content: string, x: Session, moves: seq<Move>)
    requires FileClient.FitsInt(|content|) && Inv(content, x) && AllAllowed(hash, content, x, moves)
    ensures Inv(content, Play(hash, content, x, moves))
    decreases |moves|
  {
    hide Inv, Allowed, Step, FileClient.FitsInt;
    if moves != [] {
      match moves[0] {
        case Turn(env) => TurnInv(hash, content, x, env);
        case Other(e) => OtherInv(hash, content, x, e);
      }
      PlayInv(hash, content, Step(hash, content, x, moves[0]), moves[1..]);
    }
  }

  /** Delivery among others: whatever the service is asked for in between, as long as the
      client is not refused, its blob is the content up to its position; so when its loop is
      over, or as many chunks have been accepted as it has to send, the blob is the content. */
  lemma UploadArrives(hash: string -> string, content: string, w: World, moves: seq<Move>)
    requires FileClient.FitsInt(|content|) && Consistent(w) && AllAllowed(hash, content, Begin(w), moves)
    ensures var x := Play(hash, content, Begin(w), moves);
            !x.refused && x.fileId != "" ==>
              && x.uploadId in x.world.ledger && x.world.ledger[x.uploadId].fileId == x.fileId
              && var Ticket(_, path, chunks) := x.world.ledger[x.uploadId];
                 && 0 <= x.position <= |content|
                 && path in x.world.server.blobs && x.world.server.blobs[path] == content[..x.position]
                 && (Over(content, x) ==> x.world.server.blobs[path] == content)
                 && (|content| >= 5 && |chunks| == FileClient.ChunkCount(|content|) ==>
                     x.world.server.blobs[path] == content)
  {
    hide Consistent, AllAllowed, Play, Step, Bytes,
        FileClient.FitsInt, FileClient.ChunkCount, FileClient.Position, ToSize;
    PlayInv(hash, content, Begin(w), moves);
    var x := Play(hash, content, Begin(w), moves);
    if !x.refused && x.fileId != "" {
      var chunks := x.world.ledger[x.uploadId].chunks;
      StoredBytes(x.world, x.uploadId);
      SizeBelow(content, x.position);
      assert content[..|content|] == content;
      if |content| >= 5 && |chunks| == FileClient.ChunkCount(|content|) {
        AllSent(content, |chunks|);
      }
    }
  }

  lemma StoredBytes(w: World, u: string)
    requires Consistent(w) && u in w.ledger
    ensures w.ledger[u].path in w.server.blobs && w.server.blobs[w.ledger[u].path] == Bytes(w.ledger[u].chunks)
  {
    StoredAt(w, u);
  }

  lemma AllSent(content: string, k: nat)
    requires FileClient.FitsInt(|content|) && |content| >= 5 && k == FileClient.ChunkCount(|content|)
    ensures FileClient.Position(|content|, k) == |content|
  {
    FileClient.FitsEnds(|content|);
  }

  /** The client's part of a step is a turn of the client. */
  function Alone(x: Session): FileClient.Client {
    FileClient.Client(x.world.server, x.position, x.fileId, x.uploadId, x.count, x.refused)
  }

  lemma TurnIsTheClients(hash: string -> string, content: string, x: Session, env: UploadEnv)
    ensures Alone(Step(hash, content, x, Turn(env))) == FileClient.TakeTurn(hash, env, content, Alone(x))
  {
    hide Upload, FileClient.IntAdvance, FileClient.TurnData, FileClient.ChunkReq;
  }

  /** A turn is not refused for anything the others have done, as long as session, storage
      and database work and the file's row and blob are there. */
  lemma TurnAccepted(hash: string -> string, content: string, x: Session, env: UploadEnv)
    requires FileClient.FitsInt(|content|) && Inv(content, x) && !Over(content, x)
    requires env.user.Some? && env.stored
    requires x.fileId != "" ==>
               PathFound(x.world.server, x.fileId, env.found)
               && x.world.server.metas[x.fileId].path.value in x.world.server.blobs
    ensures !Step(hash, content, x, Turn(env)).refused
  {
    hide Consistent, Upload, Next, Bytes, ToInt32, FileClient.IntAdvance, FileClient.TurnData, FileClient.FitsInt,
         FileClient.Position, PathFound;
    UploadAnswers(hash, x.world, TurnReq(hash, content, x), env);
  }
}
