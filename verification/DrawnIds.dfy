/** The file service with the identifiers it really draws: upload ids and file ids come
    from the one counter of the process (services/file/source/fileRpcService.cpp over
    scaffold/src/suiRandom.cpp), which other code draws from as well. That they are new
    among what the process has drawn is a result here. The counter starts again at 0 with
    each process, so that a file id is not one of an earlier process stays a hypothesis, as
    does that storage returns new paths. */
module DrawnIds {
  import opened Base
  import opened FileTransfer
  import C = FileClient
  import I = Identifiers

  const FILE_ID_LENGTH := 32

  datatype Request =
    | Chunked(others: nat,             // identifiers other code has drawn meanwhile
              req: UploadReq, user: Option<string>, path: string, stored: bool, inserted: bool, found: bool,
              suffix: seq<nat>, letters: seq<nat>)  // what the generator returns
    | Picture(others: nat, image: ImageReq, user: Option<string>, path: string, stored: bool, inserted: bool,
              letters: seq<nat>)
    | Completion(fileId: string, env: CompleteEnv)

  /** drawn is the number of identifiers the process has drawn so far. */
  datatype Process = Process(world: World, drawn: nat)

  function Started(metas: map<string, Meta>, blobs: map<string, string>): Process {
    Process(StartWith(metas, blobs), 0)
  }

  function FileId(letters: seq<nat>, drawn: nat): string {
    I.UuidFrom(I.ALL, letters, drawn % TWO_32)
  }

  function NewUploadId(md5: string, suffix: seq<nat>, drawn: nat): string {
    I.UploadId(md5, I.UuidFrom(I.ALL, suffix, drawn % TWO_32))
  }

  /** First the upload id is drawn, then the file id. */
  function EventOf(hash: string -> string, p: Process, r: Request): Event {
    match r
    case Chunked(others, req, user, path, stored, inserted, found, suffix, letters) =>
      var c := p.drawn + others;
      var uploadId, fileId := NewUploadId(hash(req.data), suffix, c), FileId(letters, c + 1);
      Send(req, UploadEnv(user, uploadId, fileId, path, stored, inserted, found))
    case Picture(others, image, user, path, stored, inserted, letters) =>
      Image(image, ImageEnv(user, FileId(letters, p.drawn + others), path, stored, inserted))
    case Completion(fileId, env) => Finish(fileId, env)
  }

  /** A request that starts an upload draws two identifiers, an image one. */
  function Drawn(hash: string -> string, p: Process, r: Request): nat {
    match r
    case Chunked(others, req, _, _, _, _, _, _, _) =>
      p.drawn + others + if DrawsIds(hash, req, EventOf(hash, p, r).env) then 2 else 0
    case Picture(others, image, _, _, _, _, _) =>
      p.drawn + others + if DrawsImageId(image, EventOf(hash, p, r).imageEnv) then 1 else 0
    case Completion(_, _) => p.drawn
  }

  function Serve(hash: string -> string, p: Process, r: Request): Process {
    Process(Next(hash, p.world, EventOf(hash, p, r)), Drawn(hash, p, r))
  }

  function ServeAll(hash: string -> string, p: Process, rs: seq<Request>): (p': Process)
    ensures p.drawn <= p'.drawn
    decreases |rs|
  {
    if rs == [] then p else ServeAll(hash, Serve(hash, p, rs[0]), rs[1..])
  }

  function Events(hash: string -> string, p: Process, rs: seq<Request>): seq<Event>
    decreases |rs|
  {
    if rs == [] then [] else [EventOf(hash, p, rs[0])] + Events(hash, Serve(hash, p, rs[0]), rs[1..])
  }

  ghost predicate IsMd5(hash: string -> string) {
    forall data :: |hash(data)| == I.MD5_LENGTH
  }

  ghost predicate NewPath(w: World, path: string) {
    path !in w.server.blobs && forall f :: f in w.server.metas ==> w.server.metas[f].path != Some(path)
  }

  /** What is still taken from outside: as many random letters as are asked for, a new path
      from storage, a file id that no earlier process has left, and the client's pairing of
      upload id and file id. */
  ghost predicate Given(hash: string -> string, older: set<string>, p: Process, r: Request) {
    match r
    case Chunked(others, req, _, path, _, _, _, suffix, letters) =>
      && |suffix| == I.SUFFIX_LENGTH && |letters| == FILE_ID_LENGTH
      && NewPath(p.world, path) && FileId(letters, p.drawn + others + 1) !in older && Paired(p.world, req)
    case Picture(others, _, _, path, _, _, letters) =>
      |letters| == FILE_ID_LENGTH && NewPath(p.world, path) && FileId(letters, p.drawn + others) !in older
    case Completion(_, _) => true
  }

  ghost predicate AllGiven(hash: string -> string, older: set<string>, p: Process, rs: seq<Request>)
    decreases |rs|
  {
    rs == [] || (Given(hash, older, p, rs[0]) && AllGiven(hash, older, Serve(hash, p, rs[0]), rs[1..]))
  }

  // -------------------------------------------------------------------- the invariant

  ghost predicate FileIdOf(id: string, letters: seq<nat>, c: nat) {
    |letters| == FILE_ID_LENGTH && id == I.UuidFrom(I.ALL, letters, c)
  }

  /** The id was made with a counter below the given one. */
  ghost predicate FileIdBefore(id: string, counter: nat) {
    exists letters: seq<nat>, c: nat :: FileIdOf(id, letters, c) && c < counter
  }

  /** Every id in use was drawn by this process, or is that of an older row. */
  ghost predicate IdsInv(w: World, older: set<string>, drawn: nat) {
    && (forall u :: u in w.server.trackers ==> I.MadeBefore(u, drawn))
    && (forall f :: f in w.server.metas ==> f in older || FileIdBefore(f, drawn))
    && (forall u :: u in w.ledger ==> FileIdBefore(w.ledger[u].fileId, drawn))
  }

  lemma FileIdFresh(letters: seq<nat>, counter: nat, id: string)
    requires |letters| == FILE_ID_LENGTH && FileIdBefore(id, counter)
    ensures I.UuidFrom(I.ALL, letters, counter) != id
  {
    var letters': seq<nat>, c: nat :| FileIdOf(id, letters', c) && c < counter;
    hide I.UuidFrom;
    if I.UuidFrom(I.ALL, letters, counter) == id {
      I.UuidCounter(I.ALL, letters, counter, I.ALL, letters', c);
    }
  }

  lemma FileIdLater(id: string, counter: nat, later: nat)
    requires FileIdBefore(id, counter) && counter <= later
    ensures FileIdBefore(id, later)
  {
    var letters: seq<nat>, c: nat :| FileIdOf(id, letters, c) && c < counter;
  }

  lemma FileIdInk(letters: seq<nat>, counter: nat)
    ensures I.UuidFrom(I.ALL, letters, counter) != ""
  {
  }

  lemma IdsLater(w: World, older: set<string>, drawn: nat, later: nat)
    requires IdsInv(w, older, drawn) && drawn <= later
    ensures IdsInv(w, older, later)
  {
    hide I.MadeBefore, FileIdBefore;
    forall u | u in w.server.trackers ensures I.MadeBefore(u, later) { I.MadeLater(u, drawn, later); }
    forall f | f in w.server.metas ensures f in older || FileIdBefore(f, later) {
      if f !in older {
        FileIdLater(f, drawn, later);
      }
    }
    forall u | u in w.ledger ensures FileIdBefore(w.ledger[u].fileId, later) {
      FileIdLater(w.ledger[u].fileId, drawn, later);
    }
  }

  lemma NoWrap(md5: string, suffix: seq<nat>, letters: seq<nat>, c: nat)
    requires c < TWO_32
    ensures NewUploadId(md5, suffix, c) == I.UploadId(md5, I.UuidFrom(I.ALL, suffix, c))
    ensures FileId(letters, c) == I.UuidFrom(I.ALL, letters, c)
  {
  }

  /** Freshness of a file id, for a process that with it has drawn no more than 2^32
      identifiers. */
  lemma DrawnFileIsFresh(w: World, older: set<string>, letters: seq<nat>, path: string, c: nat)
    requires IdsInv(w, older, c) && c < TWO_32 && |letters| == FILE_ID_LENGTH
    requires NewPath(w, path) && FileId(letters, c) !in older
    ensures FreshFile(w, FileId(letters, c), path)
  {
    hide I.MadeBefore, FileIdBefore, I.UuidFrom, I.UploadId, NewUploadId, FileId;
    var id := FileId(letters, c);
    FileIdInk(letters, c);
    NoWrap("", letters, letters, c);
    forall f | f in w.server.metas ensures f != id {
      if f !in older {
        FileIdFresh(letters, c, f);
      }
    }
    forall u | u in w.ledger ensures w.ledger[u].fileId != id { FileIdFresh(letters, c, w.ledger[u].fileId); }
  }

  /** And of an upload id together with a file id. */
  lemma DrawnAreFresh(w: World, older: set<string>, md5: string, suffix: seq<nat>,
      letters: seq<nat>, env: UploadEnv, c: nat)
    requires IdsInv(w, older, c) && c + 2 <= TWO_32 && |md5| == I.MD5_LENGTH
    requires |suffix| == I.SUFFIX_LENGTH && |letters| == FILE_ID_LENGTH
    requires env.uploadId == NewUploadId(md5, suffix, c) && env.fileId == FileId(letters, c + 1)
    requires NewPath(w, env.path) && env.fileId !in older
    ensures FreshDraws(w, env)
  {
    hide I.MadeBefore, FileIdBefore, I.UuidFrom, I.UploadId, NewUploadId, FileId, FreshFile, NewPath;
    IdsLater(w, older, c, c + 1);
    DrawnFileIsFresh(w, older, letters, env.path, c + 1);
    NoWrap(md5, suffix, letters, c);
    forall u | u in w.server.trackers ensures u != env.uploadId { I.UploadIdFresh(md5, suffix, c, u); }
  }

  lemma FileJustMade(letters: seq<nat>, c: nat)
    requires c < TWO_32 && |letters| == FILE_ID_LENGTH
    ensures FileIdBefore(FileId(letters, c), c + 1)
  {
    hide I.UuidFrom, I.UploadId, NewUploadId, FileId;
    NoWrap("", letters, letters, c);
    assert FileIdOf(FileId(letters, c), letters, c);
  }

  lemma UploadJustMade(md5: string, suffix: seq<nat>, c: nat)
    requires c < TWO_32 && |md5| == I.MD5_LENGTH && |suffix| == I.SUFFIX_LENGTH
    ensures I.MadeBefore(NewUploadId(md5, suffix, c), c + 2)
  {
    hide I.UuidFrom, I.UploadId, NewUploadId, FileId;
    NoWrap(md5, suffix, suffix, c);
    assert I.MadeOf(NewUploadId(md5, suffix, c), md5, suffix, c);
  }

  predicate OwnUpload(hash: string -> string, e: Event, id: string) {
    e.Send? && DrawsIds(hash, e.req, e.env) && id == e.env.uploadId
  }

  predicate OwnFile(hash: string -> string, e: Event, id: string) {
    || (e.Send? && DrawsIds(hash, e.req, e.env) && id == e.env.fileId)
    || (e.Image? && DrawsImageId(e.image, e.imageEnv) && id == e.imageEnv.fileId)
  }

  /** The ids that a step puts to use are old ones, or, if the request draws, its own. */
  lemma IdsInUse(hash: string -> string, w: World, e: Event)
    ensures var w' := Next(hash, w, e);
            && (forall u :: u in w'.server.trackers ==> u in w.server.trackers || OwnUpload(hash, e, u))
            && (forall f :: f in w'.server.metas ==> f in w.server.metas || OwnFile(hash, e, f))
            && (forall u :: u in w'.ledger ==>
                  || (u in w.ledger && w'.ledger[u].fileId == w.ledger[u].fileId)
                  || OwnFile(hash, e, w'.ledger[u].fileId))
  {
    hide ToInt32, ToSize;
  }

  lemma IdsAfter(hash: string -> string, w: World, older: set<string>, e: Event, drawn: nat)
    requires IdsInv(w, older, drawn)
    requires forall id :: OwnUpload(hash, e, id) ==> I.MadeBefore(id, drawn)
    requires forall id :: OwnFile(hash, e, id) ==> FileIdBefore(id, drawn)
    ensures IdsInv(Next(hash, w, e), older, drawn)
  {
    hide Next, I.MadeBefore, FileIdBefore, OwnUpload, OwnFile;
    IdsInUse(hash, w, e);
  }

  lemma ChunkedStep(hash: string -> string, older: set<string>, p: Process, r: Request)
    requires r.Chunked? && IsMd5(hash) && IdsInv(p.world, older, p.drawn) && Given(hash, older, p, r)
    requires Drawn(hash, p, r) <= TWO_32
    ensures Admissible(hash, p.world, EventOf(hash, p, r))
    ensures IdsInv(Serve(hash, p, r).world, older, Drawn(hash, p, r))
  {
    hide IdsInv, Next, I.MadeBefore, FileIdBefore, I.UuidFrom, I.UploadId,
        NewUploadId, FileId, FreshDraws, Paired, NewPath;
    var e, c := EventOf(hash, p, r), p.drawn + r.others;
    IdsLater(p.world, older, p.drawn, Drawn(hash, p, r));
    if DrawsIds(hash, e.req, e.env) {
      IdsLater(p.world, older, p.drawn, c);
      DrawnAreFresh(p.world, older, hash(r.req.data), r.suffix, r.letters, e.env, c);
      UploadJustMade(hash(r.req.data), r.suffix, c);
      FileJustMade(r.letters, c + 1);
    }
    IdsAfter(hash, p.world, older, e, Drawn(hash, p, r));
  }

  lemma PictureStep(hash: string -> string, older: set<string>, p: Process, r: Request)
    requires r.Picture? && IdsInv(p.world, older, p.drawn) && Given(hash, older, p, r)
    requires Drawn(hash, p, r) <= TWO_32
    ensures Admissible(hash, p.world, EventOf(hash, p, r))
    ensures IdsInv(Serve(hash, p, r).world, older, Drawn(hash, p, r))
  {
    hide IdsInv, Next, I.MadeBefore, FileIdBefore, I.UuidFrom, I.UploadId, NewUploadId, FileId, FreshFile, NewPath;
    var e, c := EventOf(hash, p, r), p.drawn + r.others;
    IdsLater(p.world, older, p.drawn, Drawn(hash, p, r));
    if DrawsImageId(e.image, e.imageEnv) {
      IdsLater(p.world, older, p.drawn, c);
      DrawnFileIsFresh(p.world, older, r.letters, r.path, c);
      FileJustMade(r.letters, c);
    }
    IdsAfter(hash, p.world, older, e, Drawn(hash, p, r));
  }

  lemma ServeStep(hash: string -> string, older: set<string>, p: Process, r: Request)
    requires IsMd5(hash) && IdsInv(p.world, older, p.drawn) && Given(hash, older, p, r)
    requires Drawn(hash, p, r) <= TWO_32
    ensures Admissible(hash, p.world, EventOf(hash, p, r))
    ensures IdsInv(Serve(hash, p, r).world, older, Drawn(hash, p, r))
  {
    hide IdsInv, Next, IsMd5, Given, I.MadeBefore, FileIdBefore;
    match r {
      case Chunked(_, _, _, _, _, _, _, _, _) => ChunkedStep(hash, older, p, r);
      case Picture(_, _, _, _, _, _, _) => PictureStep(hash, older, p, r);
      case Completion(_, _) => IdsAfter(hash, p.world, older, EventOf(hash, p, r), p.drawn);
    }
  }

  /** No run needs the freshness of the ids it draws as a hypothesis: while the process draws
      no more than 2^32 of them in all, every request of the run meets what storage exactly
      once and in order needs, and so every upload is stored as promised. */
  lemma {:induction false} DrawnIdsSuffice(hash: string -> string, older: set<string>, p: Process, rs: seq<Request>)
    requires IsMd5(hash) && Consistent(p.world) && IdsInv(p.world, older, p.drawn)
    requires AllGiven(hash, older, p, rs) && ServeAll(hash, p, rs).drawn <= TWO_32
    ensures AllAdmissible(hash, p.world, Events(hash, p, rs))
    ensures Run(hash, p.world, Events(hash, p, rs)) == ServeAll(hash, p, rs).world
    ensures Consistent(ServeAll(hash, p, rs).world)
    decreases |rs|
  {
    hide Admissible, Consistent, IdsInv, Next, Given, EventOf, IsMd5;
    if rs != [] {
      var p' := Serve(hash, p, rs[0]);
      ServeStep(hash, older, p, rs[0]);
      StepConsistent(hash, p.world, EventOf(hash, p, rs[0]));
      DrawnIdsSuffice(hash, older, p', rs[1..]);
      assert Events(hash, p, rs)[1..] == Events(hash, p', rs[1..]);
    }
  }

  /** From the start of a process, whatever rows and blobs it finds. */
  lemma StoredWithDrawnIds(hash: string -> string, metas: map<string, Meta>,
      blobs: map<string, string>, rs: seq<Request>)
    requires IsMd5(hash) && AllGiven(hash, metas.Keys, Started(metas, blobs), rs)
    requires ServeAll(hash, Started(metas, blobs), rs).drawn <= TWO_32
    ensures AllAdmissible(hash, StartWith(metas, blobs), Events(hash, Started(metas, blobs), rs))
    ensures Consistent(ServeAll(hash, Started(metas, blobs), rs).world)
  {
    hide Consistent, AllGiven, IsMd5;
    StartConsistent(metas, blobs);
    DrawnIdsSuffice(hash, metas.Keys, Started(metas, blobs), rs);
  }

  // ----------------------------------------------------------- the client's exchange

  /** What a client may count on before an exchange: the ids in use are older ones, or were
      drawn by the process up to now. */
  ghost predicate Ready(s: Server, older: set<string>, counter: nat) {
    IdsInv(World(s, map[]), older, counter)
  }

  lemma DrawnAreSmooth(s: Server, older: set<string>, c: nat, letters: seq<nat>, env: UploadEnv)
    requires Ready(s, older, c) && c + 1 < TWO_32 && |letters| == FILE_ID_LENGTH
    requires env.user.Some? && env.stored && env.inserted && env.found
    requires env.uploadId !in s.trackers && env.fileId == I.UuidFrom(I.ALL, letters, c + 1)
    requires NewPath(World(s, map[]), env.path) && env.fileId !in older
    ensures C.Smooth(s, env)
  {
    hide I.UuidFrom, I.MadeBefore, FileIdBefore, FileId, IdsInv;
    IdsLater(World(s, map[]), older, c, c + 1);
    NoWrap("", letters, letters, c + 1);
    DrawnFileIsFresh(World(s, map[]), older, letters, env.path, c + 1);
  }

  lemma ReadyAgain(s: Server, older: set<string>, c: nat, letters: seq<nat>,
      env: UploadEnv, content: string, count: nat)
    requires Ready(s, older, c) && c + 1 < TWO_32 && |letters| == FILE_ID_LENGTH && env.user.Some?
    requires I.MadeBefore(env.uploadId, c + 1) && env.fileId == I.UuidFrom(I.ALL, letters, c + 1)
    ensures Ready(C.Finished(s, env, content, count), older, c + 2)
  {
    hide I.UuidFrom, I.MadeBefore, FileIdBefore, FileId;
    IdsLater(World(s, map[]), older, c, c + 2);
    NoWrap("", letters, letters, c + 1);
    FileJustMade(letters, c + 1);
    I.MadeLater(env.uploadId, c + 1, c + 2);
  }

  /** The exchange of the client with a process that draws its ids from the counter, as it
      does on the first chunk: what the exchange needs of them is derived, and holds again
      for the next one. (An empty content has no first chunk.) */
  method ExchangeDrawn(svc: FileRpcService, random: I.RandomUtil, content: string, user: string, path: string,
                       suffixes: nat -> seq<nat>, letters: seq<nat>, blockSize: nat -> nat, ghost older: set<string>)
    returns (ok: bool, contents: string, fileId: string)
    requires IsMd5(svc.hash) && Ready(svc.View(), older, random.counter) && random.counter + 2 < TWO_32
    requires (forall k :: |suffixes(k)| == I.SUFFIX_LENGTH) && |letters| == FILE_ID_LENGTH
    requires NewPath(World(svc.View(), map[]), path) && I.UuidFrom(I.ALL, letters, random.counter + 1) !in older
    requires |content| >= 5 && C.FitsInt(|content|)
    modifies svc, random
    ensures ok && contents == content && fileId !in old(svc.metas)
    ensures svc.metas == old(svc.metas)[fileId := Meta(user, Some(path), |content|, "text", Success)]
    ensures svc.blobs == old(svc.blobs)[path := content]
    ensures random.counter == old(random.counter) + 2 && Ready(svc.View(), older, random.counter)
  {
    hide I.UuidFrom, I.MadeBefore, FileIdBefore, C.FitsInt, C.ChunkCount;
    ghost var c, before := random.counter, svc.View();
    var md5 := svc.hash(content[..C.Advance(|content|, 0, |content| / 5)]);
    var uploadId, _ := I.CreateUploadId(random, md5, svc.trackers.Keys, suffixes);
    fileId := random.Uuid(I.ALL, letters);
    var env := UploadEnv(Some(user), uploadId, fileId, path, true, true, true);
    DrawnAreSmooth(before, older, c, letters, env);
    ok, contents := C.Exchange(svc, content, env, blockSize);
    ReadyAgain(before, older, c, letters, env, content, C.ChunkCount(|content|));
  }
}
