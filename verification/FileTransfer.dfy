/** The chunked upload and download service (services/file/source/fileRpcService.cpp,
    FileTracker.cpp, fileServiceData.cpp, scaffold/src/suiFastdfs.cpp).

    Each handler runs as one atomic step. What it cannot decide itself - the user of
    the session, the identifiers it draws, whether storage and database succeed - comes
    in as a parameter. A storage or database call that fails leaves its store as it was. */
module FileTransfer {
  import opened Base

  /** _standardChunkSize: 10 MiB. */
  const K: nat := 1024 * 1024 * 10

  datatype FileStatus = Unknown | Uploading | Success | Down

  /** A row of the file table; file ids are unique in it. */
  datatype Meta = Meta(userId: string, path: Option<string>, size: nat, mime: string, status: FileStatus)

  /** The server's record of one upload; the integers are int32_t. */
  datatype Tracker = Tracker(fileId: string, fileSize: int, size: int, total: int, index: int)

  datatype Server = Server(trackers: map<string, Tracker>, metas: map<string, Meta>, blobs: map<string, string>)

  const EMPTY_SERVER := Server(map[], map[], map[])

  datatype Code = OK | NoPermission | DataInvalid | IndexInvalid | UploadFailed | UploadIdInvalid
                | FileNotFound | StatusError | SizeError | DownloadFailed | UserMismatch

  datatype UploadReq = UploadReq(fileId: string, uploadId: string, chunkIndex: int, chunkTotal: int,
                                 fileSize: int, mime: string, data: string, md5: string)

  /** next is curOperationSize, when the reply carries it. */
  datatype UploadRsp = UploadRsp(code: Code, fileId: string, uploadId: string, next: Option<int>)

  /** What the outside decides during one upload request. */
  datatype UploadEnv = UploadEnv(user: Option<string>, uploadId: string, fileId: string, path: string,
                                 stored: bool, inserted: bool, found: bool)

  function Refuse(code: Code): UploadRsp {
    UploadRsp(code, "", "", None)
  }

  /** NewFileMeta: an insert that fails, or meets the unique file id, is swallowed. */
  function NewMeta(metas: map<string, Meta>, fileId: string, meta: Meta, works: bool): map<string, Meta> {
    if works && fileId !in metas then metas[fileId := meta] else metas
  }

  /** The first chunk: no file id in the request. */
  function UploadFirst(s: Server, req: UploadReq, user: string, env: UploadEnv): (Server, UploadRsp) {
    if req.chunkIndex != 0 then (s, UploadRsp(IndexInvalid, "", "", Some(0)))
    else if !env.stored then (s, Refuse(UploadFailed))
    else
      var meta := Meta(user, Some(env.path), ToSize(req.fileSize), req.mime, Uploading);
      var tracker := Tracker(env.fileId, req.fileSize, ToInt32(|req.data|), req.chunkTotal, 1);
      (Server(s.trackers[env.uploadId := tracker],
          NewMeta(s.metas, env.fileId, meta, env.inserted), s.blobs[env.path := req.data]),
       UploadRsp(OK, env.fileId, env.uploadId, None))
  }

  /** A later chunk: appended to the file of the request's file id. */
  function UploadAppend(s: Server, req: UploadReq, env: UploadEnv): (Server, UploadRsp) {
    if req.uploadId !in s.trackers then (s, Refuse(UploadIdInvalid))
    else
      var tracker := s.trackers[req.uploadId];
      if req.chunkIndex != tracker.index then (s, UploadRsp(IndexInvalid, "", "", Some(tracker.index)))
      else if !env.found || req.fileId !in s.metas || s.metas[req.fileId].path == None then (s, Refuse(FileNotFound))
      else
        var path := s.metas[req.fileId].path.value;
        if !env.stored || path !in s.blobs then (s, Refuse(UploadFailed))
        else
          var tracker' := tracker.(index := ToInt32(req.chunkIndex + 1), size := ToInt32(tracker.size + |req.data|));
          (s.(trackers := s.trackers[req.uploadId := tracker'], blobs := s.blobs[path := s.blobs[path] + req.data]),
           UploadRsp(OK, req.fileId, req.uploadId, Some(ToInt32(req.chunkIndex + 1))))
  }

  function Upload(hash: string -> string, s: Server, req: UploadReq, env: UploadEnv): (Server, UploadRsp) {
    if env.user == None then (s, Refuse(NoPermission))
    else if hash(req.data) != req.md5 then (s, Refuse(DataInvalid))
    else if req.fileId == "" then UploadFirst(s, req, env.user.value, env)
    else UploadAppend(s, req, env)
  }

  /** DeleteFileMeta then NewFileMeta, each of which may fail unnoticed. */
  datatype CompleteEnv = CompleteEnv(user: Option<string>, found: bool, deleted: bool, inserted: bool)

  function Complete(s: Server, fileId: string, env: CompleteEnv): (Server, Code) {
    if env.user == None then (s, NoPermission)
    else if !env.found || fileId !in s.metas then (s, FileNotFound)
    else
      var meta := s.metas[fileId];
      if meta.status != Uploading then (s, StatusError)
      else
        var left := if env.deleted then s.metas - {fileId} else s.metas;
        (s.(metas := NewMeta(left, fileId, meta.(status := Success), env.inserted)), OK)
  }

  /** An image, which is uploaded at once and by its own user only. */
  datatype ImageReq = ImageReq(userId: string, size: int, mime: string, data: string)

  datatype ImageEnv = ImageEnv(user: Option<string>, fileId: string, path: string, stored: bool, inserted: bool)

  /** Whether an image gets as far as drawing a file id. */
  predicate DrawsImageId(req: ImageReq, env: ImageEnv) {
    env.user == Some(req.userId) && env.stored
  }

  function StoreImage(s: Server, req: ImageReq, env: ImageEnv): (Server, UploadRsp) {
    if env.user == None then (s, Refuse(NoPermission))
    else if env.user.value != req.userId then (s, Refuse(UserMismatch))
    else if !env.stored then (s, Refuse(UploadFailed))
    else
      var meta := Meta(env.user.value, Some(env.path), ToSize(req.size), req.mime, Success);
      (s.(metas := NewMeta(s.metas, env.fileId, meta, env.inserted), blobs := s.blobs[env.path := req.data]),
       UploadRsp(OK, env.fileId, "", None))
  }

  // ---------------------------------------------------------------------- downloading

  /** What GetFileData replies: file size and number of chunks, as int32_t. */
  datatype FileData = FileData(code: Code, size: int, total: int)

  function FileDataOf(s: Server, fileId: string, found: bool): FileData {
    if !found || fileId !in s.metas then FileData(FileNotFound, 0, 0)
    else
      var size := s.metas[fileId].size;
      FileData(OK, ToInt32(size), ToInt32(size / K + if size % K != 0 then 1 else 0))
  }

  /** The byte range of a blob that a chunk request is answered with. */
  function ChunkOf(blob: string, offset: nat, request: nat): string {
    if offset >= |blob| then ""
    else blob[offset..if |blob| - offset < request then |blob| else offset + request]
  }

  datatype DownloadEnv = DownloadEnv(user: Option<string>, found: bool, read: bool)

  function Download(s: Server, fileId: string, chunkIndex: nat, env: DownloadEnv): (Code, string) {
    if env.user == None then (NoPermission, "")
    else if !env.found || fileId !in s.metas then (FileNotFound, "")
    else
      var meta := s.metas[fileId];
      if meta.status != Success then (StatusError, "")
      else if meta.size == 0 then (SizeError, "")
      else if meta.path == None then (FileNotFound, "")
      else if !env.read || meta.path.value !in s.blobs then (DownloadFailed, "")
      else (OK, ChunkOf(s.blobs[meta.path.value], chunkIndex * K, K))
  }

  // ------------------------------------------------------------------------ the class

  class FileRpcService {
    const hash: string -> string
    var trackers: map<string, Tracker>
    var metas: map<string, Meta>
    var blobs: map<string, string>

    ghost function View(): Server
      reads this
    {
      Server(trackers, metas, blobs)
    }

    constructor (hash: string -> string)
      ensures View() == EMPTY_SERVER && this.hash == hash
    {
      this.hash := hash;
      trackers, metas, blobs := map[], map[], map[];
    }

    method NewFileMeta(fileId: string, meta: Meta, works: bool)
      modifies this`metas
      ensures metas == NewMeta(old(metas), fileId, meta, works)
    {
      if works && fileId !in metas {
        metas := metas[fileId := meta];
      }
    }

    method DeleteFileMeta(fileId: string, works: bool)
      modifies this`metas
      ensures metas == if works then old(metas) - {fileId} else old(metas)
    {
      if works {
        metas := metas - {fileId};
      }
    }

    method UploadImage(req: ImageReq, env: ImageEnv) returns (rsp: UploadRsp)
      modifies this
      ensures (View(), rsp) == StoreImage(old(View()), req, env)
    {
      if env.user == None {
        return Refuse(NoPermission);
      }
      if env.user.value != req.userId {
        return Refuse(UserMismatch);
      }
      if !env.stored {
        return Refuse(UploadFailed);
      }
      blobs := blobs[env.path := req.data];
      NewFileMeta(env.fileId, Meta(env.user.value, Some(env.path), ToSize(req.size), req.mime, Success), env.inserted);
      return UploadRsp(OK, env.fileId, "", None);
    }

    method UploadFile(req: UploadReq, env: UploadEnv) returns (rsp: UploadRsp)
      modifies this
      ensures (View(), rsp) == Upload(hash, old(View()), req, env)
    {
      if env.user == None {
        return Refuse(NoPermission);
      }
      if hash(req.data) != req.md5 {
        return Refuse(DataInvalid);
      }
      if req.fileId == "" {
        if req.chunkIndex != 0 {
          return UploadRsp(IndexInvalid, "", "", Some(0));
        }
        if !env.stored {
          return Refuse(UploadFailed);
        }
        blobs := blobs[env.path := req.data];
        NewFileMeta(env.fileId,
            Meta(env.user.value, Some(env.path), ToSize(req.fileSize), req.mime, Uploading), env.inserted);
        trackers := trackers[env.uploadId := Tracker(env.fileId, req.fileSize, ToInt32(|req.data|), req.chunkTotal, 1)];
        return UploadRsp(OK, env.fileId, env.uploadId, None);
      }
      if req.uploadId !in trackers {
        return Refuse(UploadIdInvalid);
      }
      var tracker := trackers[req.uploadId];
      if req.chunkIndex != tracker.index {
        return UploadRsp(IndexInvalid, "", "", Some(tracker.index));
      }
      if !env.found || req.fileId !in metas || metas[req.fileId].path == None {
        return Refuse(FileNotFound);
      }
      var path := metas[req.fileId].path.value;
      if !env.stored || path !in blobs {
        return Refuse(UploadFailed);
      }
      blobs := blobs[path := blobs[path] + req.data];
      tracker := tracker.(index := ToInt32(req.chunkIndex + 1));
      tracker := tracker.(size := ToInt32(tracker.size + |req.data|));
      trackers := trackers[req.uploadId := tracker];
      return UploadRsp(OK, req.fileId, req.uploadId, Some(ToInt32(req.chunkIndex + 1)));
    }

    method CompleteFileUpload(fileId: string, env: CompleteEnv) returns (code: Code)
      modifies this
      ensures (View(), code) == Complete(old(View()), fileId, env)
    {
      if env.user == None {
        return NoPermission;
      }
      if !env.found || fileId !in metas {
        return FileNotFound;
      }
      var meta := metas[fileId];
      if meta.status != Uploading {
        return StatusError;
      }
      DeleteFileMeta(fileId, env.deleted);
      meta := meta.(status := Success);
      NewFileMeta(fileId, meta, env.inserted);
      return OK;
    }

    method GetFileData(fileId: string, found: bool) returns (data: FileData)
      ensures data == FileDataOf(View(), fileId, found)
    {
      if !found || fileId !in metas {
        return FileData(FileNotFound, 0, 0);
      }
      var size := metas[fileId].size;
      var total := size / K + if size % K != 0 then 1 else 0;
      data := FileData(OK, ToInt32(size), ToInt32(total));
    }

    /** blockSize is how storage cuts the answer into the blocks of its callbacks. */
    method DownloadFile(fileId: string, chunkIndex: nat, env: DownloadEnv, blockSize: nat -> nat)
        returns (code: Code, data: string)
      ensures (code, data) == Download(View(), fileId, chunkIndex, env)
    {
      if env.user == None {
        return NoPermission, "";
      }
      if !env.found || fileId !in metas {
        return FileNotFound, "";
      }
      var meta := metas[fileId];
      if meta.status != Success {
        return StatusError, "";
      }
      if meta.size == 0 {
        return SizeError, "";
      }
      if meta.path == None {
        return FileNotFound, "";
      }
      if !env.read || meta.path.value !in blobs {
        return DownloadFailed, "";
      }
      data := DownloadChunkToBuff(blobs[meta.path.value], chunkIndex * K, K, blockSize);
      return OK, data;
    }
  }

  /** Reading one range of a blob: whatever blocks storage delivers it in, the callbacks
      together append exactly that range, cut off at the end of the blob. */
  method DownloadChunkToBuff(blob: string, offset: nat, request: nat, blockSize: nat -> nat) returns (buff: string)
    ensures buff == ChunkOf(blob, offset, request)
  {
    if |blob| <= offset {
      return "";
    }
    var remain := |blob| - offset;
    var final := if remain < request then remain else request;
    buff := "";
    var sent, block := 0, 0;
    while sent < final
      invariant 0 <= sent <= final
      invariant buff == blob[offset..offset + sent]
    {
      var wanted := if blockSize(block) == 0 then 1 else blockSize(block);
      var bytes := if wanted < final - sent then wanted else final - sent;
      buff := buff + blob[offset + sent..offset + sent + bytes];
      sent, block := sent + bytes, block + 1;
    }
  }

  // ------------------------------------------------- what was promised to each upload

  /** A chunk that was accepted, with the index and the MD5 it was sent under. */
  datatype Chunk = Chunk(index: int, data: string, md5: string)

  /** One upload as its client saw it from the replies. */
  datatype Ticket = Ticket(fileId: string, path: string, chunks: seq<Chunk>)

  datatype World = World(server: Server, ledger: map<string, Ticket>)

  /** A process as it starts: no upload of its own, and the rows and blobs of earlier ones. */
  function StartWith(metas: map<string, Meta>, blobs: map<string, string>): World {
    World(Server(map[], metas, blobs), map[])
  }

  const EMPTY := StartWith(map[], map[])

  datatype Event =
    | Send(req: UploadReq, env: UploadEnv)
    | Finish(fileId: string, complete: CompleteEnv)
    | Image(image: ImageReq, imageEnv: ImageEnv)

  /** The ledger is kept from requests and replies alone. */
  function Record(ledger: map<string, Ticket>, req: UploadReq, env: UploadEnv, rsp: UploadRsp): map<string, Ticket> {
    if rsp.code != OK then ledger
    else if req.fileId == "" then
        ledger[rsp.uploadId := Ticket(rsp.fileId, env.path, [Chunk(req.chunkIndex, req.data, req.md5)])]
    else if req.uploadId in ledger then
      var ticket := ledger[req.uploadId];
      ledger[req.uploadId := ticket.(chunks := ticket.chunks + [Chunk(req.chunkIndex, req.data, req.md5)])]
    else ledger
  }

  function Next(hash: string -> string, w: World, e: Event): World {
    match e
    case Send(req, env) =>
      var (server, rsp) := Upload(hash, w.server, req, env);
      World(server, Record(w.ledger, req, env, rsp))
    case Finish(fileId, env) => w.(server := Complete(w.server, fileId, env).0)
    case Image(req, env) => w.(server := StoreImage(w.server, req, env).0)
  }

  /** What drawing and storage guarantee of a new file: its id and its path are new. */
  ghost predicate FreshFile(w: World, fileId: string, path: string) {
    && path !in w.server.blobs
    && (forall f :: f in w.server.metas ==> w.server.metas[f].path != Some(path))
    && fileId != "" && fileId !in w.server.metas
    && (forall u :: u in w.ledger ==> w.ledger[u].fileId != fileId)
  }

  ghost predicate FreshDraws(w: World, env: UploadEnv) {
    env.uploadId !in w.server.trackers && FreshFile(w, env.fileId, env.path)
  }

  /** The client sends an upload's chunks with the file id it was issued. */
  ghost predicate Paired(w: World, req: UploadReq) {
    req.fileId != "" && req.uploadId in w.ledger ==> req.fileId == w.ledger[req.uploadId].fileId
  }

  /** Whether a request gets as far as drawing identifiers for a new upload. */
  predicate DrawsIds(hash: string -> string, req: UploadReq, env: UploadEnv) {
    env.user.Some? && hash(req.data) == req.md5 && req.fileId == "" && req.chunkIndex == 0
  }

  ghost predicate Admissible(hash: string -> string, w: World, e: Event) {
    match e
    case Send(req, env) => (DrawsIds(hash, req, env) ==> FreshDraws(w, env)) && Paired(w, req)
    case Finish(_, _) => true
    case Image(req, env) => DrawsImageId(req, env) ==> FreshFile(w, env.fileId, env.path)
  }

  /** The bytes of the accepted chunks, in the order in which they were accepted. */
  function Bytes(chunks: seq<Chunk>): string {
    if chunks == [] then "" else Bytes(chunks[..|chunks| - 1]) + chunks[|chunks| - 1].data
  }

  /** One upload is stored as promised: the chunks were accepted under the indices 0, 1,
      2, ..., the blob is their concatenation, and the tracker knows their number and
      their length, both as int32_t. */
  ghost predicate Stored(s: Server, u: string, ticket: Ticket) {
    && u in s.trackers
    && s.trackers[u].fileId == ticket.fileId && ticket.fileId != ""
    && ticket.chunks != []
    && (forall i :: 0 <= i < |ticket.chunks| ==> ticket.chunks[i].index == ToInt32(i))
    && s.trackers[u].index == ToInt32(|ticket.chunks|)
    && s.trackers[u].size == ToInt32(|Bytes(ticket.chunks)|)
    && ticket.path in s.blobs && s.blobs[ticket.path] == Bytes(ticket.chunks)
    && (ticket.fileId in s.metas ==> s.metas[ticket.fileId].path == Some(ticket.path))
  }

  ghost predicate SameUploads(w: World) {
    forall u :: u in w.ledger <==> u in w.server.trackers
  }

  ghost predicate AllStored(w: World) {
    forall u :: u in w.ledger ==> Stored(w.server, u, w.ledger[u])
  }

  ghost predicate Apart(a: Ticket, b: Ticket) {
    a.path != b.path && a.fileId != b.fileId
  }

  ghost predicate AllApart(ledger: map<string, Ticket>) {
    forall u, v :: u in ledger && v in ledger && u != v ==> Apart(ledger[u], ledger[v])
  }

  ghost predicate Issued(ledger: map<string, Ticket>, fileId: string) {
    exists u :: u in ledger && ledger[u].fileId == fileId
  }

  /** A row that was not issued with an upload, but written by an earlier process or for an
      image, does not lead to the blob of one. */
  ghost predicate RowApart(w: World, f: string)
    requires f in w.server.metas
  {
    Issued(w.ledger, f) || forall u :: u in w.ledger ==> w.server.metas[f].path != Some(w.ledger[u].path)
  }

  ghost predicate RowsApart(w: World) {
    forall f :: f in w.server.metas ==> RowApart(w, f)
  }

  /** Every upload is stored as promised, no two share a file id or a blob, and no other
      row of the table leads to a blob of theirs. */
  ghost predicate Consistent(w: World) {
    SameUploads(w) && AllStored(w) && AllApart(w.ledger) && RowsApart(w)
  }

  lemma ToInt32Add(a: int, b: int)
    ensures ToInt32(ToInt32(a) + b) == ToInt32(a + b)
  {
  }

  lemma BytesSnoc(chunks: seq<Chunk>, c: Chunk)
    ensures Bytes(chunks + [c]) == Bytes(chunks) + c.data
  {
    assert (chunks + [c])[..|chunks|] == chunks;
  }

  // ---------------------------------------------------------------------- one request

  /** Whenever a reply says which chunk index it wants, that is the index the server
      will accept next: 0 for a new upload, the tracker's index for a running one. */
  lemma NextIsExpected(hash: string -> string, s: Server, req: UploadReq, env: UploadEnv)
    ensures var (s', rsp) := Upload(hash, s, req, env);
            rsp.next.Some? ==>
              if req.fileId == "" then rsp.next.value == 0
              else req.uploadId in s'.trackers && rsp.next.value == s'.trackers[req.uploadId].index
  {
  }

  /** A chunk that was accepted is refused when it is sent again, and the refusal says
      which index is expected. */
  lemma DuplicateRefused(hash: string -> string, s: Server, req: UploadReq, env: UploadEnv, again: UploadEnv)
    requires req.fileId != "" && Upload(hash, s, req, env).1.code == OK && again.user.Some?
    ensures var (s', rsp) := Upload(hash, s, req, env);
            Upload(hash, s', req, again) == (s', UploadRsp(IndexInvalid, "", "", rsp.next))
  {
  }

  lemma StoredAt(w: World, u: string)
    requires Consistent(w) && u in w.ledger
    ensures Stored(w.server, u, w.ledger[u])
  {
  }

  lemma ApartAt(w: World, u: string, v: string)
    requires Consistent(w) && u in w.ledger && v in w.ledger && u != v
    ensures Apart(w.ledger[u], w.ledger[v])
  {
  }

  /** Tickets and rows that keep their file ids and paths stay apart. */
  lemma SameTickets(w: World, w': World)
    requires Consistent(w)
    requires forall u :: u in w.ledger <==> u in w'.ledger
    requires forall u :: u in w.ledger ==>
               w'.ledger[u].path == w.ledger[u].path && w'.ledger[u].fileId == w.ledger[u].fileId
    requires forall f :: f in w'.server.metas ==>
               f in w.server.metas && w'.server.metas[f].path == w.server.metas[f].path
    ensures AllApart(w'.ledger) && RowsApart(w')
  {
    hide AllStored, Stored;
    forall f | f in w'.server.metas ensures RowApart(w', f) {
      assert RowApart(w, f);
      IssuedStill(w.ledger, w'.ledger, f);
    }
  }

  lemma IssuedStill(ledger: map<string, Ticket>, ledger': map<string, Ticket>, f: string)
    requires forall u :: u in ledger ==> u in ledger' && ledger'[u].fileId == ledger[u].fileId
    ensures Issued(ledger, f) ==> Issued(ledger', f)
  {
    if Issued(ledger, f) {
      var u :| u in ledger && ledger[u].fileId == f;
      assert ledger'[u].fileId == f;
    }
  }

  /** What is stored for an upload depends on its own tracker, blob and row only. */
  lemma StoredFrame(s: Server, s': Server, v: string, ticket: Ticket)
    requires Stored(s, v, ticket)
    requires v in s'.trackers && s'.trackers[v] == s.trackers[v]
    requires ticket.path in s'.blobs && s'.blobs[ticket.path] == s.blobs[ticket.path]
    requires ticket.fileId in s'.metas ==>
        ticket.fileId in s.metas && s'.metas[ticket.fileId].path == s.metas[ticket.fileId].path
    ensures Stored(s', v, ticket)
  {
  }

  lemma StoredInBlobs(s: Server, v: string, ticket: Ticket)
    requires Stored(s, v, ticket)
    ensures v in s.trackers && ticket.path in s.blobs
  {
  }

  lemma FirstStored(w: World, req: UploadReq, user: string, env: UploadEnv)
    requires FreshDraws(w, env) && req.fileId == "" && UploadFirst(w.server, req, user, env).1.code == OK
    ensures Stored(UploadFirst(w.server, req, user, env).0, env.uploadId,
                   Ticket(env.fileId, env.path, [Chunk(req.chunkIndex, req.data, req.md5)]))
  {
    assert Bytes([]) == "" && Bytes([Chunk(req.chunkIndex, req.data, req.md5)]) == req.data;
  }

  lemma FirstOther(w: World, req: UploadReq, user: string, env: UploadEnv, v: string)
    requires Consistent(w) && FreshDraws(w, env) && req.fileId == ""
        && UploadFirst(w.server, req, user, env).1.code == OK
    requires v in w.ledger
    ensures v != env.uploadId && w.ledger[v].path != env.path && w.ledger[v].fileId != env.fileId
    ensures Stored(UploadFirst(w.server, req, user, env).0, v, w.ledger[v])
  {
    hide Stored, AllApart, RowsApart, ToInt32, ToSize;
    StoredAt(w, v);
    StoredInBlobs(w.server, v, w.ledger[v]);
    StoredFrame(w.server, UploadFirst(w.server, req, user, env).0, v, w.ledger[v]);
  }

  lemma FirstRows(w: World, w': World, u: string, ticket: Ticket)
    requires Consistent(w) && u !in w.ledger && w'.ledger == w.ledger[u := ticket]
    requires forall f :: f in w'.server.metas && f != ticket.fileId ==>
               f in w.server.metas && w'.server.metas[f].path == w.server.metas[f].path != Some(ticket.path)
    ensures RowsApart(w')
  {
    hide AllStored, Stored, AllApart;
    forall f | f in w'.server.metas ensures RowApart(w', f) {
      if f == ticket.fileId {
        assert w'.ledger[u].fileId == f;
      } else {
        assert RowApart(w, f);
        IssuedStill(w.ledger, w'.ledger, f);
      }
    }
  }

  lemma FirstConsistent(w: World, req: UploadReq, user: string, env: UploadEnv)
    requires Consistent(w) && (req.chunkIndex == 0 ==> FreshDraws(w, env)) && req.fileId == ""
    ensures var (server, rsp) := UploadFirst(w.server, req, user, env);
            Consistent(World(server, Record(w.ledger, req, env, rsp)))
  {
    hide Stored, Issued, RowsApart, ToInt32, ToSize, Bytes;
    var (server, rsp) := UploadFirst(w.server, req, user, env);
    var w' := World(server, Record(w.ledger, req, env, rsp));
    if rsp.code == OK {
      var ticket := w'.ledger[env.uploadId];
      FirstStored(w, req, user, env);
      forall v | v in w.ledger
        ensures v != env.uploadId && Stored(server, v, w.ledger[v]) && Apart(w.ledger[v], ticket)
      {
        FirstOther(w, req, user, env, v);
      }
      FirstRows(w, w', env.uploadId, ticket);
    }
  }

  /** The request appends to the upload's own file, or appends nothing. */
  predicate SafeAppend(ledger: map<string, Ticket>, req: UploadReq) {
    req.uploadId in ledger ==> req.fileId == ledger[req.uploadId].fileId || req.data == ""
  }

  /** A row leads to the blob of an upload exactly if it is the row of that upload. */
  lemma RowOwner(w: World, fileId: string, path: string, v: string)
    requires Consistent(w) && v in w.ledger
    requires fileId in w.server.metas && w.server.metas[fileId].path == Some(path)
    ensures path == w.ledger[v].path <==> fileId == w.ledger[v].fileId
  {
    StoredAt(w, v);
    assert RowApart(w, fileId);
    hide AllStored, AllApart;
    if Issued(w.ledger, fileId) {
      var u :| u in w.ledger && w.ledger[u].fileId == fileId;
      StoredAt(w, u);
      if u != v {
        ApartAt(w, u, v);
      }
    }
  }

  /** The server after an append that was accepted. */
  ghost predicate Appended(s: Server, s': Server, req: UploadReq, path: string) {
    && req.uploadId in s.trackers && path in s.blobs
    && req.chunkIndex == s.trackers[req.uploadId].index
    && s'.metas == s.metas
    && s'.trackers == s.trackers[req.uploadId := s.trackers[req.uploadId].(
         index := ToInt32(req.chunkIndex + 1), size := ToInt32(s.trackers[req.uploadId].size + |req.data|))]
    && s'.blobs == s.blobs[path := s.blobs[path] + req.data]
  }

  lemma AppendRefused(s: Server, req: UploadReq, env: UploadEnv)
    ensures UploadAppend(s, req, env).1.code != OK ==> UploadAppend(s, req, env).0 == s
  {
  }

  lemma AppendTarget(w: World, req: UploadReq, env: UploadEnv) returns (path: string)
    requires Consistent(w) && UploadAppend(w.server, req, env).1.code == OK
    ensures req.uploadId in w.ledger
    ensures req.fileId in w.server.metas && w.server.metas[req.fileId].path == Some(path)
    ensures Appended(w.server, UploadAppend(w.server, req, env).0, req, path)
  {
    hide AllStored, AllApart, RowsApart, ToInt32;
    path := w.server.metas[req.fileId].path.value;
  }

  /** The upload itself: one more chunk, under the next index. */
  lemma AppendOwn(s: Server, s': Server, req: UploadReq, path: string, ticket: Ticket)
    requires Appended(s, s', req, path) && Stored(s, req.uploadId, ticket)
    requires path == ticket.path || req.data == ""
    ensures Stored(s', req.uploadId, ticket.(chunks := ticket.chunks + [Chunk(req.chunkIndex, req.data, req.md5)]))
  {
    BytesSnoc(ticket.chunks, Chunk(req.chunkIndex, req.data, req.md5));
    ToInt32Add(|ticket.chunks|, 1);
    ToInt32Add(|Bytes(ticket.chunks)|, |req.data|);
    hide Bytes, ToInt32;
    assert req.data == "" ==> s.blobs[ticket.path] + req.data == s.blobs[ticket.path];
  }

  /** Any other upload. */
  lemma AppendOther(s: Server, s': Server, req: UploadReq, path: string, v: string, ticket: Ticket)
    requires Appended(s, s', req, path) && Stored(s, v, ticket) && v != req.uploadId
    requires path != ticket.path || req.data == ""
    ensures Stored(s', v, ticket)
    ensures v in s.trackers && s'.trackers[v] == s.trackers[v]
    ensures ticket.path in s.blobs && s'.blobs[ticket.path] == s.blobs[ticket.path]
  {
    StoredInBlobs(s, v, ticket);
    hide Stored, ToInt32;
    assert req.data == "" ==> s.blobs[ticket.path] + req.data == s.blobs[ticket.path];
    StoredFrame(s, s', v, ticket);
  }

  /** An upload that did not send the chunk does not own the blob it went to, unless
      the chunk is empty. */
  lemma TargetIsSender(w: World, req: UploadReq, path: string, v: string)
    requires Consistent(w) && SafeAppend(w.ledger, req) && req.uploadId in w.ledger && v in w.ledger
    requires req.fileId in w.server.metas && w.server.metas[req.fileId].path == Some(path)
    ensures v != req.uploadId ==> path != w.ledger[v].path || req.data == ""
    ensures path == w.ledger[req.uploadId].path || req.data == ""
  {
    RowOwner(w, req.fileId, path, v);
    RowOwner(w, req.fileId, path, req.uploadId);
    hide Consistent;
    if v != req.uploadId {
      ApartAt(w, v, req.uploadId);
    }
  }

  ghost predicate Untouched(w: World, w': World, v: string) {
    && v in w.ledger && v in w'.ledger && w'.ledger[v] == w.ledger[v]
    && v in w.server.trackers && v in w'.server.trackers && w'.server.trackers[v] == w.server.trackers[v]
    && var path := w.ledger[v].path;
       path in w.server.blobs && path in w'.server.blobs && w'.server.blobs[path] == w.server.blobs[path]
  }

  lemma FirstUntouched(w: World, req: UploadReq, user: string, env: UploadEnv, v: string)
    requires Consistent(w) && (req.chunkIndex == 0 ==> FreshDraws(w, env)) && req.fileId == "" && v in w.ledger
    ensures var (server, rsp) := UploadFirst(w.server, req, user, env);
            Untouched(w, World(server, Record(w.ledger, req, env, rsp)), v)
  {
    StoredAt(w, v);
    StoredInBlobs(w.server, v, w.ledger[v]);
    hide AllStored, Stored, AllApart, RowsApart, ToInt32, ToSize;
  }

  lemma AppendUntouched(w: World, req: UploadReq, env: UploadEnv, v: string)
    requires Consistent(w) && SafeAppend(w.ledger, req) && req.fileId != "" && v in w.ledger && v != req.uploadId
    ensures var (server, rsp) := UploadAppend(w.server, req, env);
            Untouched(w, World(server, Record(w.ledger, req, env, rsp)), v)
  {
    hide UploadAppend, Stored, Consistent, SafeAppend, ToInt32;
    AppendRefused(w.server, req, env);
    StoredAt(w, v);
    StoredInBlobs(w.server, v, w.ledger[v]);
    var (server, rsp) := UploadAppend(w.server, req, env);
    if rsp.code == OK {
      var path := AppendTarget(w, req, env);
      TargetIsSender(w, req, path, v);
      AppendOther(w.server, server, req, path, v, w.ledger[v]);
    }
  }

  /** A request leaves every other upload's tracker, ticket and blob alone. */
  lemma OthersUntouched(hash: string -> string, w: World, req: UploadReq, env: UploadEnv, v: string)
    requires Consistent(w) && Admissible(hash, w, Send(req, env)) && v in w.ledger
    requires req.fileId == "" || v != req.uploadId
    ensures Untouched(w, Next(hash, w, Send(req, env)), v)
  {
    StoredAt(w, v);
    StoredInBlobs(w.server, v, w.ledger[v]);
    hide Stored, UploadFirst, UploadAppend;
    if env.user.Some? && hash(req.data) == req.md5 {
      if req.fileId == "" {
        FirstUntouched(w, req, env.user.value, env, v);
      } else {
        AppendUntouched(w, req, env, v);
      }
    }
  }

  lemma AppendAllStored(w: World, s': Server, req: UploadReq, path: string)
    requires Consistent(w) && SafeAppend(w.ledger, req) && req.uploadId in w.ledger
    requires req.fileId in w.server.metas && w.server.metas[req.fileId].path == Some(path)
    requires Appended(w.server, s', req, path)
    ensures var ticket := w.ledger[req.uploadId];
            var chunks := ticket.chunks + [Chunk(req.chunkIndex, req.data, req.md5)];
            AllStored(World(s', w.ledger[req.uploadId := ticket.(chunks := chunks)]))
  {
    var u := req.uploadId;
    var chunks := w.ledger[u].chunks + [Chunk(req.chunkIndex, req.data, req.md5)];
    var ledger := w.ledger[u := w.ledger[u].(chunks := chunks)];
    hide Stored, Appended;
    forall v | v in ledger ensures Stored(s', v, ledger[v]) {
      StoredAt(w, v);
      TargetIsSender(w, req, path, v);
      if v == u {
        AppendOwn(w.server, s', req, path, w.ledger[u]);
      } else {
        AppendOther(w.server, s', req, path, v, w.ledger[v]);
      }
    }
  }

  lemma AppendConsistent(w: World, req: UploadReq, env: UploadEnv)
    requires Consistent(w) && req.fileId != "" && SafeAppend(w.ledger, req)
    ensures var (server, rsp) := UploadAppend(w.server, req, env);
            Consistent(World(server, Record(w.ledger, req, env, rsp)))
  {
    hide AllStored, AllApart, RowsApart, UploadAppend, SafeAppend, ToInt32;
    AppendRefused(w.server, req, env);
    var (server, rsp) := UploadAppend(w.server, req, env);
    var w' := World(server, Record(w.ledger, req, env, rsp));
    if rsp.code == OK {
      var path := AppendTarget(w, req, env);
      AppendAllStored(w, server, req, path);
      SameTickets(w, w');
    }
  }

  lemma FinishConsistent(w: World, fileId: string, env: CompleteEnv)
    requires Consistent(w)
    ensures Consistent(World(Complete(w.server, fileId, env).0, w.ledger))
  {
    var w' := World(Complete(w.server, fileId, env).0, w.ledger);
    hide Stored, AllApart, RowsApart;
    forall v | v in w.ledger ensures Stored(w'.server, v, w.ledger[v]) {
      StoredAt(w, v);
      StoredInBlobs(w.server, v, w.ledger[v]);
      StoredFrame(w.server, w'.server, v, w.ledger[v]);
    }
    SameTickets(w, w');
  }

  lemma ImageStored(w: World, req: ImageReq, env: ImageEnv, v: string)
    requires Consistent(w) && FreshFile(w, env.fileId, env.path) && v in w.ledger
    ensures Stored(StoreImage(w.server, req, env).0, v, w.ledger[v]) && w.ledger[v].path != env.path
  {
    StoredAt(w, v);
    StoredInBlobs(w.server, v, w.ledger[v]);
    hide Stored, Consistent, ToSize;
    StoredFrame(w.server, StoreImage(w.server, req, env).0, v, w.ledger[v]);
  }

  lemma ImageConsistent(w: World, req: ImageReq, env: ImageEnv)
    requires Consistent(w) && (DrawsImageId(req, env) ==> FreshFile(w, env.fileId, env.path))
    ensures Consistent(World(StoreImage(w.server, req, env).0, w.ledger))
  {
    if DrawsImageId(req, env) {
      var w' := World(StoreImage(w.server, req, env).0, w.ledger);
      hide Stored, AllApart, ToSize, Issued, FreshFile;
      forall v | v in w.ledger ensures Stored(w'.server, v, w.ledger[v]) && w.ledger[v].path != env.path {
        ImageStored(w, req, env, v);
      }
      forall f | f in w'.server.metas ensures RowApart(w', f) {
        assert f in w.server.metas ==> RowApart(w, f);
      }
    }
  }

  lemma StepConsistent(hash: string -> string, w: World, e: Event)
    requires Consistent(w) && Admissible(hash, w, e)
    ensures Consistent(Next(hash, w, e))
  {
    match e
    case Send(req, env) =>
      if env.user.Some? && hash(req.data) == req.md5 {
        if req.fileId == "" {
          FirstConsistent(w, req, env.user.value, env);
        } else {
          AppendConsistent(w, req, env);
        }
      }
    case Finish(fileId, env) => FinishConsistent(w, fileId, env);
    case Image(req, env) => ImageConsistent(w, req, env);
  }

  /** Bytes sent under one upload but to another's file are missing from its own. */
  lemma MispairedAppend(w: World, req: UploadReq, env: UploadEnv)
    requires Consistent(w) && req.fileId != "" && !SafeAppend(w.ledger, req)
    requires UploadAppend(w.server, req, env).1.code == OK
    ensures var (server, rsp) := UploadAppend(w.server, req, env);
            !Stored(server, req.uploadId, Record(w.ledger, req, env, rsp)[req.uploadId])
  {
    var u := req.uploadId;
    var path := AppendTarget(w, req, env);
    RowOwner(w, req.fileId, path, u);
    StoredAt(w, u);
    BytesSnoc(w.ledger[u].chunks, Chunk(req.chunkIndex, req.data, req.md5));
    hide Bytes, ToInt32, UploadAppend, Consistent;
  }

  /** What the pairing of upload id and file id is needed for, exactly: an accepted
      append keeps all uploads stored as promised if and only if it was sent with the
      file id that was issued with its upload id, or carried no bytes. */
  lemma AppendKeepsStorageIff(hash: string -> string, w: World, req: UploadReq, env: UploadEnv)
    requires Consistent(w) && req.fileId != "" && Upload(hash, w.server, req, env).1.code == OK
    ensures Consistent(Next(hash, w, Send(req, env))) <==> SafeAppend(w.ledger, req)
  {
    hide Stored, UploadAppend;
    if SafeAppend(w.ledger, req) {
      AppendConsistent(w, req, env);
    } else {
      MispairedAppend(w, req, env);
    }
  }

  // --------------------------------------------------------------------- whole runs

  ghost predicate AllAdmissible(hash: string -> string, w: World, events: seq<Event>)
    decreases |events|
  {
    events == [] || (Admissible(hash, w, events[0]) && AllAdmissible(hash, Next(hash, w, events[0]), events[1..]))
  }

  function Run(hash: string -> string, w: World, events: seq<Event>): World
    decreases |events|
  {
    if events == [] then w else Run(hash, Next(hash, w, events[0]), events[1..])
  }

  /** Exactly once and in order: over any run of requests from many uploads - accepted,
      repeated, out of order, corrupt or failed - every upload is stored as promised. */
  lemma {:induction false} StoredExactlyOnce(hash: string -> string, w: World, events: seq<Event>)
    requires Consistent(w) && AllAdmissible(hash, w, events)
    ensures Consistent(Run(hash, w, events))
    decreases |events|
  {
    if events != [] {
      StepConsistent(hash, w, events[0]);
      StoredExactlyOnce(hash, Next(hash, w, events[0]), events[1..]);
    }
  }

  /** A process starts consistent, whatever rows and blobs it finds. */
  lemma StartConsistent(metas: map<string, Meta>, blobs: map<string, string>)
    ensures Consistent(StartWith(metas, blobs))
  {
  }

  /** A first chunk that nothing stands in the way of. */
  lemma FirstAccepted(hash: string -> string, w: World, data: string, env: UploadEnv)
    requires FreshDraws(w, env) && env.user.Some? && env.stored && env.inserted
    ensures var req := UploadReq("", "", 0, 2, 2, "text", data, hash(data));
            && Admissible(hash, w, Send(req, env))
            && Next(hash, w, Send(req, env)) == World(
                 Server(w.server.trackers[env.uploadId := Tracker(env.fileId, 2, ToInt32(|data|), 2, 1)],
                        w.server.metas[env.fileId := Meta(env.user.value, Some(env.path), 2, "text", Uploading)],
                        w.server.blobs[env.path := data]),
                 w.ledger[env.uploadId := Ticket(env.fileId, env.path, [Chunk(0, data, hash(data))])])
  {
  }

  predicate AllWorks(env: UploadEnv) {
    env.user.Some? && env.stored && env.inserted && env.found && env.fileId != ""
  }

  predicate Distinct(a: UploadEnv, b: UploadEnv) {
    a.uploadId != b.uploadId && a.fileId != b.fileId && a.path != b.path
  }

  function FirstSend(hash: string -> string, env: UploadEnv): Event {
    Send(UploadReq("", "", 0, 2, 2, "text", "x", hash("x")), env)
  }

  /** Two uploads, each with its first chunk. */
  lemma TwoStarted(hash: string -> string, a: UploadEnv, b: UploadEnv)
    requires AllWorks(a) && AllWorks(b) && Distinct(a, b)
    ensures var events := [FirstSend(hash, a), FirstSend(hash, b)];
            var w := Run(hash, EMPTY, events);
            && AllAdmissible(hash, EMPTY, events)
            && w.server.trackers == map[a.uploadId := Tracker(a.fileId, 2, 1, 2, 1),
                b.uploadId := Tracker(b.fileId, 2, 1, 2, 1)]
            && w.server.metas == map[a.fileId := Meta(a.user.value, Some(a.path), 2, "text", Uploading),
                                     b.fileId := Meta(b.user.value, Some(b.path), 2, "text", Uploading)]
            && w.server.blobs == map[a.path := "x", b.path := "x"]
            && w.ledger == map[a.uploadId := Ticket(a.fileId, a.path, [Chunk(0, "x", hash("x"))]),
                b.uploadId := Ticket(b.fileId, b.path, [Chunk(0, "x", hash("x"))])]
  {
    var events := [FirstSend(hash, a), FirstSend(hash, b)];
    FirstAccepted(hash, EMPTY, "x", a);
    var w := Next(hash, EMPTY, events[0]);
    FirstAccepted(hash, w, "x", b);
    TwoEvents(hash, events);
    hide Next, AllAdmissible, Run;
  }

  /** In that state, a chunk sent under the upload id of a with the file id of b. */
  lemma MispairedAccepted(hash: string -> string, a: UploadEnv, b: UploadEnv, env: UploadEnv)
    requires AllWorks(a) && AllWorks(b) && Distinct(a, b) && AllWorks(env)
    ensures var w := Run(hash, EMPTY, [FirstSend(hash, a), FirstSend(hash, b)]);
            var req := UploadReq(b.fileId, a.uploadId, 1, 2, 2, "text", "y", hash("y"));
            && Upload(hash, w.server, req, env).1.code == OK && !SafeAppend(w.ledger, req)
            && (Distinct(a, env) && Distinct(b, env) ==> FreshDraws(w, env))
  {
    TwoStarted(hash, a, b);
    hide Run, AllAdmissible, FirstSend;
  }

  /** The failing request can be received, whatever the hash: two uploads are started,
      and a chunk sent under the upload id of the one with the file id of the other is
      accepted and spoils what is stored. */
  lemma MispairingReachable(hash: string -> string) returns (events: seq<Event>, req: UploadReq, env: UploadEnv)
    ensures AllAdmissible(hash, EMPTY, events) && FreshDraws(Run(hash, EMPTY, events), env)
    ensures var w := Run(hash, EMPTY, events);
            && Upload(hash, w.server, req, env).1.code == OK
            && !SafeAppend(w.ledger, req)
            && !Consistent(Next(hash, w, Send(req, env)))
  {
    var a := UploadEnv(Some("user"), "u", "f", "p", true, true, true);
    var b := UploadEnv(Some("user"), "uu", "ff", "pp", true, true, true);
    env := UploadEnv(Some("user"), "uuu", "fff", "ppp", true, true, true);
    req := UploadReq("ff", "u", 1, 2, 2, "text", "y", hash("y"));
    events := [FirstSend(hash, a), FirstSend(hash, b)];
    assert Distinct(a, b) && Distinct(a, env) && Distinct(b, env);
    TwoStarted(hash, a, b);
    MispairedAccepted(hash, a, b, env);
    StartConsistent(map[], map[]);
    StoredExactlyOnce(hash, EMPTY, events);
    hide *;
    AppendKeepsStorageIff(hash, Run(hash, EMPTY, events), req, env);
  }

  lemma TwoEvents(hash: string -> string, events: seq<Event>)
    requires |events| == 2 && Admissible(hash, EMPTY, events[0])
        && Admissible(hash, Next(hash, EMPTY, events[0]), events[1])
    ensures AllAdmissible(hash, EMPTY, events)
    ensures Run(hash, EMPTY, events) == Next(hash, Next(hash, EMPTY, events[0]), events[1])
  {
    hide Admissible, Next;
    var w := Next(hash, Next(hash, EMPTY, events[0]), events[1]);
    assert events[1..][1..] == [];
    assert AllAdmissible(hash, w, []) && Run(hash, w, []) == w;
  }

  /** Every reply to a later chunk that carries an index names the number of chunks of the
      upload that have been accepted, so the index of the one to send next; a refused first
      chunk is told 0. */
  lemma NextCountsAccepted(hash: string -> string, w: World, req: UploadReq, env: UploadEnv)
    requires Consistent(w) && Admissible(hash, w, Send(req, env)) && Upload(hash, w.server, req, env).1.next.Some?
    ensures var next, w' := Upload(hash, w.server, req, env).1.next.value, Next(hash, w, Send(req, env));
            if req.fileId == "" then next == 0 && w' == w
            else req.uploadId in w'.ledger && next == ToInt32(|w'.ledger[req.uploadId].chunks|)
  {
    StepConsistent(hash, w, Send(req, env));
    NextIsExpected(hash, w.server, req, env);
    FirstIndexRefused(hash, w.server, req, env);
    var w' := Next(hash, w, Send(req, env));
    hide AllStored, AllApart, RowsApart, ToInt32, Upload, Admissible;
    if req.fileId != "" {
      TrackerCounts(w', req.uploadId);
    }
  }

  lemma FirstIndexRefused(hash: string -> string, s: Server, req: UploadReq, env: UploadEnv)
    ensures req.fileId == "" && Upload(hash, s, req, env).1.next.Some? ==>
              Upload(hash, s, req, env).1.code != OK && Upload(hash, s, req, env).0 == s
  {
  }

  lemma TrackerCounts(w: World, u: string)
    requires Consistent(w) && u in w.server.trackers
    ensures u in w.ledger && w.server.trackers[u].index == ToInt32(|w.ledger[u].chunks|)
  {
    StoredAt(w, u);
  }

  // ---------------------------------------------- what each request is answered, and when

  /** A request that gets past the session and the MD5 check. */
  predicate Checked(hash: string -> string, req: UploadReq, env: UploadEnv) {
    env.user.Some? && hash(req.data) == req.md5
  }

  /** An append under a running upload, and with the index that is due. */
  ghost predicate Due(w: World, req: UploadReq) {
    req.fileId != "" && req.uploadId in w.ledger && req.chunkIndex == ToInt32(|w.ledger[req.uploadId].chunks|)
  }

  /** A row of the file id with a path is found. */
  predicate PathFound(s: Server, fileId: string, found: bool) {
    found && fileId in s.metas && s.metas[fileId].path.Some?
  }

  /** In whatever state: what is accepted was sent in a session and with the MD5 of its data,
      and what is refused changes nothing. */
  lemma AcceptedMatches(hash: string -> string, s: Server, req: UploadReq, env: UploadEnv)
    ensures var (s', rsp) := Upload(hash, s, req, env);
            && (rsp.code == OK ==> env.user.Some? && hash(req.data) == req.md5)
            && (rsp.code != OK ==> s' == s)
  {
  }

  /** Every answer to an upload request has one cause: nothing is accepted that was not sent
      with its MD5 in a session, under the index that is due and with a file to go to; and
      whatever is refused changes nothing. */
  lemma UploadAnswers(hash: string -> string, w: World, req: UploadReq, env: UploadEnv)
    requires Consistent(w)
    ensures var (s, rsp) := Upload(hash, w.server, req, env);
            && (rsp.code == NoPermission <==> env.user == None)
            && (rsp.code == DataInvalid <==> env.user.Some? && hash(req.data) != req.md5)
            && (rsp.code == UploadIdInvalid <==>
                  Checked(hash, req, env) && req.fileId != "" && req.uploadId !in w.ledger)
            && (rsp.code == IndexInvalid <==>
                  && Checked(hash, req, env)
                  && if req.fileId == "" then req.chunkIndex != 0 else req.uploadId in w.ledger && !Due(w, req))
            && (rsp.code == FileNotFound <==>
                  Checked(hash, req, env) && Due(w, req) && !PathFound(w.server, req.fileId, env.found))
            && (rsp.code == OK <==>
                  && Checked(hash, req, env) && env.stored
                  && if req.fileId == "" then req.chunkIndex == 0
                     else Due(w, req) && PathFound(w.server, req.fileId, env.found)
                          && w.server.metas[req.fileId].path.value in w.server.blobs)
            && rsp.code in {NoPermission, DataInvalid, UploadIdInvalid, IndexInvalid, FileNotFound, UploadFailed, OK}
            && (rsp.code != OK ==> s == w.server && rsp.fileId == "" && rsp.uploadId == "")
            && (rsp.next.Some? <==> rsp.code == IndexInvalid || (rsp.code == OK && req.fileId != ""))
  {
    hide AllStored, AllApart, RowsApart, Stored, ToInt32, ToSize;
    if req.uploadId in w.server.trackers {
      TrackerCounts(w, req.uploadId);
    }
  }

  /** The row that a first chunk or an image leaves: whose it is, where it is, of which type,
      still uploading or done; its size is the declared one, and is announced as declared even
      if it was negative. */
  lemma RowsRecorded(hash: string -> string, s: Server, req: UploadReq, env: UploadEnv,
                     image: ImageReq, imageEnv: ImageEnv)
    requires -0x8000_0000 <= req.fileSize <= INT32_MAX && -0x8000_0000 <= image.size <= INT32_MAX
    requires env.inserted && env.fileId !in s.metas && imageEnv.inserted && imageEnv.fileId !in s.metas
    ensures var (s', rsp) := Upload(hash, s, req, env);
            rsp.code == OK && req.fileId == "" ==>
              && env.fileId in s'.metas && s'.metas == s.metas[env.fileId := s'.metas[env.fileId]]
              && s'.metas[env.fileId].(size := 0) == Meta(env.user.value, Some(env.path), 0, req.mime, Uploading)
              && Declared(s'.metas[env.fileId].size, req.fileSize)
              && FileDataOf(s', env.fileId, true).size == req.fileSize
    ensures var (s', rsp) := StoreImage(s, image, imageEnv);
            rsp.code == OK ==>
              && imageEnv.fileId in s'.metas && s'.metas == s.metas[imageEnv.fileId := s'.metas[imageEnv.fileId]]
              && s'.metas[imageEnv.fileId].(size := 0)
                 == Meta(image.userId, Some(imageEnv.path), 0, image.mime, Success)
              && Declared(s'.metas[imageEnv.fileId].size, image.size)
              && FileDataOf(s', imageEnv.fileId, true).size == image.size
  {
    SizeSurvives(req.fileSize);
    SizeSurvives(image.size);
    hide ToInt32, ToSize;
  }

  /** A size_t that was converted from a signed size. */
  predicate Declared(size: nat, declared: int) {
    size == if declared >= 0 then declared else 18_446_744_073_709_551_616 + declared
  }

  lemma SizeSurvives(declared: int)
    requires -0x8000_0000 <= declared <= INT32_MAX
    ensures Declared(ToSize(declared), declared) && ToInt32(ToSize(declared)) == declared
  {
  }

  /** File data is announced exactly for a file that is found. */
  lemma FileDataAnswers(s: Server, fileId: string, found: bool)
    ensures var data := FileDataOf(s, fileId, found);
            && data.code == (if found && fileId in s.metas then OK else FileNotFound)
            && (data.code == OK ==>
                  && data.size == ToInt32(s.metas[fileId].size)
                  && data.total == ToInt32((s.metas[fileId].size + 10_485_759) / 10_485_760))
  {
  }

  /** Every accepted chunk came with the MD5 of its data. */
  ghost predicate Matched(hash: string -> string, ledger: map<string, Ticket>) {
    forall u :: u in ledger ==> forall c :: c in ledger[u].chunks ==> hash(c.data) == c.md5
  }

  lemma MatchedStep(hash: string -> string, w: World, e: Event)
    requires Matched(hash, w.ledger)
    ensures Matched(hash, Next(hash, w, e).ledger)
  {
    hide ToInt32, ToSize;
  }

  /** Over any run whatever, no chunk is accepted that does not match. */
  lemma {:induction false} MatchedRun(hash: string -> string, w: World, events: seq<Event>)
    requires Matched(hash, w.ledger)
    ensures Matched(hash, Run(hash, w, events).ledger)
    decreases |events|
  {
    hide Matched, Next;
    if events != [] {
      MatchedStep(hash, w, events[0]);
      MatchedRun(hash, Next(hash, w, events[0]), events[1..]);
    }
  }

  /** A completion is answered with success for a file that is found uploading, in a session;
      any other answer has its one cause and changes nothing. */
  lemma CompleteAnswers(s: Server, fileId: string, env: CompleteEnv)
    ensures var (s', code) := Complete(s, fileId, env);
            && (code == NoPermission <==> env.user == None)
            && (code == FileNotFound <==> env.user.Some? && !(env.found && fileId in s.metas))
            && (code == StatusError <==>
                  env.user.Some? && env.found && fileId in s.metas && s.metas[fileId].status != Uploading)
            && (code == OK <==>
                  env.user.Some? && env.found && fileId in s.metas && s.metas[fileId].status == Uploading)
            && (code != OK ==> s' == s)
  {
  }

  /** A file is completed once: asked again, the service refuses. */
  lemma CompletedOnce(s: Server, fileId: string, env: CompleteEnv, again: CompleteEnv)
    requires Complete(s, fileId, env).1 == OK && env.deleted && env.inserted && again.user.Some? && again.found
    ensures Complete(Complete(s, fileId, env).0, fileId, again) == (Complete(s, fileId, env).0, StatusError)
  {
    CompletedIff(s, fileId, env);
  }

  /** A download is answered with data for a completed file of some declared size whose blob
      is there, in a session; any other answer has its one cause. */
  lemma DownloadAnswers(s: Server, fileId: string, chunkIndex: nat, env: DownloadEnv)
    ensures var code := Download(s, fileId, chunkIndex, env).0;
            var row := env.user.Some? && env.found && fileId in s.metas;
            && (code == NoPermission <==> env.user == None)
            && (code == StatusError <==> row && s.metas[fileId].status != Success)
            && (code == SizeError <==> row && s.metas[fileId].status == Success && s.metas[fileId].size == 0)
            && (code == OK <==>
                  && row && s.metas[fileId].status == Success && s.metas[fileId].size != 0 && env.read
                  && s.metas[fileId].path.Some? && s.metas[fileId].path.value in s.blobs)
            && (code == FileNotFound <==>
                  && env.user.Some?
                  && (row ==>
                        && s.metas[fileId].status == Success && s.metas[fileId].size != 0
                        && s.metas[fileId].path == None))
            && code in {NoPermission, FileNotFound, StatusError, SizeError, DownloadFailed, OK}
  {
  }

  /** An image is accepted from its own user only, and is then served by the download of its
      id, chunk by chunk, as it was sent; a refusal changes nothing. */
  lemma ImageServed(s: Server, req: ImageReq, env: ImageEnv, chunkIndex: nat, down: DownloadEnv)
    ensures var (s', rsp) := StoreImage(s, req, env);
            && (rsp.code == OK <==> env.user == Some(req.userId) && env.stored)
            && (rsp.code == NoPermission <==> env.user == None)
            && (rsp.code == UserMismatch <==> env.user.Some? && env.user.value != req.userId)
            && (rsp.code != OK ==> s' == s)
            && (rsp.code == OK ==>
                  && rsp.fileId == env.fileId && s'.blobs == s.blobs[env.path := req.data] && s'.trackers == s.trackers
                  && (env.inserted && env.fileId !in s.metas && req.size > 0 && req.size < TWO_64
                      && down.user.Some? && down.found && down.read ==>
                        Download(s', env.fileId, chunkIndex, down) == (OK, ChunkOf(req.data, chunkIndex * K, K))))
  {
  }

  /** A completion that is answered with success did mark the file only if both of its
      database steps worked; otherwise the file is still uploading, or its row is lost. */
  lemma CompletedIff(s: Server, fileId: string, env: CompleteEnv)
    requires Complete(s, fileId, env).1 == OK
    ensures var metas := Complete(s, fileId, env).0.metas;
            && (fileId in metas && metas[fileId].status == Success <==> env.deleted && env.inserted)
            && (fileId !in metas <==> env.deleted && !env.inserted)
            && (forall f :: f != fileId ==> (f in metas <==> f in s.metas) && (f in metas ==> metas[f] == s.metas[f]))
            && Complete(s, fileId, env).0 == s.(metas := metas)
  {
  }

  predicate Downloadable(s: Server, fileId: string) {
    fileId in s.metas && s.metas[fileId].status == Success
  }

  /** What makes a file downloadable: a completion both of whose database steps work, or
      the upload of an image under its id. */
  predicate MakesDownloadable(e: Event, fileId: string) {
    || (e.Finish? && e.fileId == fileId && e.complete.deleted && e.complete.inserted)
    || (e.Image? && e.imageEnv.fileId == fileId && DrawsImageId(e.image, e.imageEnv) && e.imageEnv.inserted)
  }

  lemma OnlyFinishCompletes(hash: string -> string, w: World, e: Event, fileId: string)
    requires !Downloadable(w.server, fileId) && Downloadable(Next(hash, w, e).server, fileId)
    ensures MakesDownloadable(e, fileId)
  {
    hide ToInt32, ToSize;
    if e.Finish? {
      if Complete(w.server, e.fileId, e.complete).1 == OK {
        CompletedIff(w.server, e.fileId, e.complete);
      }
    }
  }

  /** Over any run: a file that has become downloadable was completed, with both database
      steps working, or is an image. */
  lemma {:induction false} CompletedByRequest(hash: string -> string, w: World, events: seq<Event>, fileId: string)
    returns (k: nat)
    requires !Downloadable(w.server, fileId) && Downloadable(Run(hash, w, events).server, fileId)
    ensures k < |events| && MakesDownloadable(events[k], fileId)
    decreases |events|
  {
    hide Next, MakesDownloadable, Downloadable;
    var w' := Next(hash, w, events[0]);
    if Downloadable(w'.server, fileId) {
      OnlyFinishCompletes(hash, w, events[0], fileId);
      k := 0;
    } else {
      var k' := CompletedByRequest(hash, w', events[1..], fileId);
      k := k' + 1;
    }
  }

  /** The data is a chunk of what was accepted under upload u, which the file id was
      issued to. */
  ghost predicate ChunkOfUpload(w: World, fileId: string, chunkIndex: nat, data: string, u: string) {
    && u in w.ledger && w.ledger[u].fileId == fileId
    && var bytes, from, end := Bytes(w.ledger[u].chunks), chunkIndex * 10_485_760, (chunkIndex + 1) * 10_485_760;
       data == if from >= |bytes| then "" else bytes[from..if end > |bytes| then |bytes| else end]
  }

  /** A download of a file id that was issued with an upload is answered for a completed
      file only, and with the bytes of that upload only. */
  lemma DownloadServesUpload(w: World, fileId: string, chunkIndex: nat, env: DownloadEnv) returns (u: string)
    requires Consistent(w) && Issued(w.ledger, fileId) && Download(w.server, fileId, chunkIndex, env).0 == OK
    ensures Downloadable(w.server, fileId)
    ensures ChunkOfUpload(w, fileId, chunkIndex, Download(w.server, fileId, chunkIndex, env).1, u)
  {
    hide Bytes, Consistent, ToInt32;
    u :| u in w.ledger && w.ledger[u].fileId == fileId;
    StoredAt(w, u);
  }

  // ------------------------------------------------------------------ download tiling

  /** The number of chunks that a size is announced with. */
  function Chunks(size: nat): nat {
    size / K + if size % K != 0 then 1 else 0
  }

  /** Chunks 0, ..., n - 1 of a blob, joined. */
  function Served(blob: string, n: nat): string {
    if n == 0 then "" else Served(blob, n - 1) + ChunkOf(blob, (n - 1) * K, K)
  }

  lemma {:induction false} ServedPrefix(blob: string, n: nat)
    ensures Served(blob, n) == blob[..if n * K <= |blob| then n * K else |blob|]
  {
    if n > 0 {
      ServedPrefix(blob, n - 1);
    }
  }

  lemma ChunksCover(size: nat)
    ensures Chunks(size) * K >= size && (size > 0 ==> (Chunks(size) - 1) * K < size)
    ensures size == 0 ==> Chunks(size) == 0
  {
    assert size == size / K * K + size % K;
  }

  /** No chunk index of type int32_t makes the offset leave int64_t. */
  lemma OffsetFits(chunkIndex: nat)
    requires chunkIndex <= INT32_MAX
    ensures chunkIndex * K + K < TWO_64 / 2
  {
  }

  lemma OffsetsFit()
    ensures forall i: nat :: i <= INT32_MAX ==> i * K + K < TWO_64 / 2
  {
    forall i: nat | i <= INT32_MAX ensures i * K + K < TWO_64 / 2 {
      OffsetFits(i);
    }
  }

  lemma Tiles(blob: string)
    ensures Served(blob, Chunks(|blob|)) == blob
    ensures forall i: nat :: i + 1 < Chunks(|blob|) ==> |ChunkOf(blob, i * K, K)| == K
    ensures forall i: nat :: i < Chunks(|blob|) <==> ChunkOf(blob, i * K, K) != ""
  {
    var n := Chunks(|blob|);
    ChunksCover(|blob|);
    ServedPrefix(blob, n);
    hide Chunks, Served;
  }

  /** Tiling: the chunks of a blob partition it, all but the last are full, the last is
      not empty, and there is nothing behind it; and no chunk index of type int32_t has
      an offset that leaves int64_t. */
  lemma DownloadTiling(blob: string)
    ensures Served(blob, Chunks(|blob|)) == blob
    ensures forall i: nat :: i + 1 < Chunks(|blob|) ==> |ChunkOf(blob, i * K, K)| == K
    ensures forall i: nat :: i < Chunks(|blob|) <==> ChunkOf(blob, i * K, K) != ""
    ensures forall i: nat :: i <= INT32_MAX ==> i * K + K < TWO_64 / 2
  {
    hide *;
    Tiles(blob);
    OffsetsFit();
  }

  lemma ServedAllIff(blob: string, n: nat)
    ensures Served(blob, n) == blob <==> n >= Chunks(|blob|)
  {
    ServedPrefix(blob, n);
    ChunksCover(|blob|);
    EnoughChunks(|blob|, n);
    hide Served, Chunks;
  }

  lemma EnoughChunks(size: nat, n: nat)
    ensures n * K >= size <==> n >= Chunks(size)
  {
    ChunksCover(size);
  }

  /** How many chunks a client asks for that was announced a total, which is int32_t. */
  function Asked(total: int): nat {
    if total > 0 then total else 0
  }

  /** The number of chunks is announced from the size in the file's row, which is what the
      first chunk's request declared. A client that asks for that many chunks gets the
      whole blob if and only if they are at least as many as the blob has; for a declared
      size of type int32_t that is not negative, as many as that size has. */
  lemma AnnouncedServesBlobIff(s: Server, fileId: string, blob: string)
    requires fileId in s.metas
    ensures var total := FileDataOf(s, fileId, true).total;
            && (Served(blob, Asked(total)) == blob <==> Asked(total) >= Chunks(|blob|))
            && (s.metas[fileId].size <= INT32_MAX ==>
                  && total == Chunks(s.metas[fileId].size) == (s.metas[fileId].size + 10_485_759) / 10_485_760
                  && (s.metas[fileId].size >= |blob| ==> Served(blob, Asked(total)) == blob))
  {
    var size, total := s.metas[fileId].size, FileDataOf(s, fileId, true).total;
    ServedAllIff(blob, Asked(total));
    if size <= INT32_MAX {
      FewChunks(size);
      assert total == Chunks(size);
      if size >= |blob| {
        ChunksCover(size);
        EnoughChunks(|blob|, Chunks(size));
      }
    }
  }

  lemma FewChunks(size: nat)
    requires size <= INT32_MAX
    ensures Chunks(size) <= INT32_MAX
  {
  }
}
