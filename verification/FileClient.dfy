/** The client's upload and download loops
    (services/test/file/fileclient/fileclient.cpp), against the service. */
module FileClient {
  import opened Base
  import opened FileTransfer

  /** Where the loop goes from position i: one chunk size on, at most to the end. */
  function Advance(n: nat, i: nat, c: nat): (end: nat)
    requires i <= n
    ensures i <= end <= n
  {
    if i + c > n then n else i + c
  }

  /** The chunks that the upload loop cuts content into from position i on. */
  function Pieces(content: string, i: nat, c: nat): seq<string>
    requires i <= |content| && (c > 0 || i == |content|)
    decreases |content| - i
  {
    if i == |content| then []
    else
      var end := Advance(|content|, i, c);
      [content[i..end]] + Pieces(content, end, c)
  }

  lemma {:induction false} PiecesJoin(content: string, i: nat, c: nat)
    requires c > 0 && i <= |content|
    ensures Flatten(Pieces(content, i, c)) == content[i..]
    decreases |content| - i
  {
    if i < |content| {
      var end := Advance(|content|, i, c);
      PiecesJoin(content, end, c);
      assert Pieces(content, i, c)[1..] == Pieces(content, end, c);
      assert content[i..] == content[i..end] + content[end..];
    }
  }

  function CeilDiv(a: nat, b: nat): nat
    requires b > 0
  {
    (a + b - 1) / b
  }

  lemma CeilCovers(a: nat, b: nat)
    requires b > 0
    ensures CeilDiv(a, b) * b >= a && (CeilDiv(a, b) - 1) * b < a
  {
    var q, r := (a + b - 1) / b, (a + b - 1) % b;
    assert a + b - 1 == q * b + r;
    assert (q - 1) * b == q * b - b;
  }

  /** The lengths that the chunk size divides into chunks at all. */
  predicate Uploadable(n: nat) {
    n == 0 || n >= 5
  }

  /** How many chunks the loop sends for n bytes. */
  function ChunkCount(n: nat): nat
    requires Uploadable(n)
  {
    if n == 0 then 0 else 5 + CeilDiv(n % 5, n / 5)
  }

  /** No position of the loop, nor the sum that it is computed from, leaves int. */
  predicate FitsInt(n: nat) {
    n < 5 || ChunkCount(n) * (n / 5) <= INT32_MAX
  }

  /** The count is the least that covers all bytes. */
  lemma CountCovers(n: nat)
    requires n >= 5
    ensures ChunkCount(n) * (n / 5) >= n > (ChunkCount(n) - 1) * (n / 5)
  {
    var c, r := n / 5, n % 5;
    CeilCovers(r, c);
    assert (5 + CeilDiv(r, c)) * c == 5 * c + CeilDiv(r, c) * c;
    assert (4 + CeilDiv(r, c)) * c == 5 * c + (CeilDiv(r, c) - 1) * c;
  }

  lemma {:induction false} PiecesMany(content: string, i: nat, c: nat)
    requires c > 0 && i <= |content|
    ensures |Pieces(content, i, c)| * c >= |content| - i
    ensures i < |content| ==> (|Pieces(content, i, c)| - 1) * c < |content| - i
    decreases |content| - i
  {
    if i < |content| {
      var end := Advance(|content|, i, c);
      PiecesMany(content, end, c);
      var k := |Pieces(content, end, c)|;
      assert |Pieces(content, i, c)| == 1 + k;
      assert (1 + k) * c == c + k * c;
      if end == |content| {
        assert k == 0;
      } else {
        assert (k - 1) * c + c == k * c;
      }
    }
  }

  lemma Multiples(j: int, c: int)
    requires c > 0
    ensures j <= -1 ==> j * c <= -c
    ensures j >= 5 ==> (j - 1) * c >= 4 * c
  {
  }

  lemma Monotone(c: nat, a: nat, b: nat)
    ensures a <= b ==> a * c <= b * c
  {
    if a <= b {
      assert b * c == a * c + (b - a) * c;
    }
  }

  /** The number of multiples of c that are needed to cover r is unique. */
  lemma CeilUnique(r: nat, c: nat, j: int)
    requires c > 0 && r < 5 && j * c >= r && (j - 1) * c < r
    ensures j == CeilDiv(r, c) && 0 <= j <= 4
  {
    Multiples(j, c);
  }

  /** Splitter bound: for five bytes or more the loop sends exactly 5 + ceil((n mod 5) /
      (n div 5)) chunks, between 5 and 9, and they join to the content. */
  lemma SplitterBound(content: string)
    requires |content| >= 5
    ensures var pieces := Pieces(content, 0, |content| / 5);
            && |pieces| == ChunkCount(|content|) && 5 <= |pieces| <= 9
            && Flatten(pieces) == content
  {
    var n := |content|;
    var c, r := n / 5, n % 5;
    var k := |Pieces(content, 0, c)|;
    PiecesMany(content, 0, c);
    PiecesJoin(content, 0, c);
    assert n == 5 * c + r;
    assert (k - 5) * c == k * c - 5 * c && (k - 5 - 1) * c == (k - 1) * c - 5 * c;
    CeilUnique(r, c, k - 5);
  }

  /** One turn of the loop advances exactly when there are five bytes or more: with one
      to four bytes the chunk size is 0. */
  lemma AdvancesIff(n: nat, i: nat)
    requires i < n
    ensures Advance(n, i, n / 5) > i <==> n >= 5
  {
  }

  /** The position after k turns, if there are as many. */
  function Position(n: nat, k: nat): (i: nat)
    ensures i <= n
  {
    if k == 0 then 0 else Advance(n, Position(n, k - 1), n / 5)
  }

  lemma {:induction false} PositionGrows(n: nat, k: nat)
    ensures n >= 5 ==> Position(n, k) >= if k < n then k else n
    ensures 1 <= n <= 4 ==> Position(n, k) == 0
  {
    if k > 0 {
      PositionGrows(n, k - 1);
      if Position(n, k - 1) < n {
        AdvancesIff(n, Position(n, k - 1));
      }
    }
  }

  /** With unbounded positions, the loop reaches the end of the content if and only if it
      is empty or has five bytes or more; with one to four it stays at its start for ever. */
  lemma PositionEndsIff(n: nat)
    ensures (exists k: nat :: Position(n, k) == n) <==> Uploadable(n)
    ensures !Uploadable(n) ==> forall k: nat :: Position(n, k) == 0
  {
    forall k: nat ensures !Uploadable(n) ==> Position(n, k) == 0 {
      PositionGrows(n, k);
    }
    if n == 0 {
      assert Position(n, 0) == n;
    } else if n >= 5 {
      PositionGrows(n, n);
      assert Position(n, n) == n;
    }
  }

  lemma {:induction false} PositionIs(n: nat, k: nat)
    requires n >= 5
    ensures Position(n, k) == if k * (n / 5) < n then k * (n / 5) else n
  {
    var c := n / 5;
    if k > 0 {
      PositionIs(n, k - 1);
      assert k * c == (k - 1) * c + c;
    }
  }

  // ----------------------------------------------------------- positions of type int

  /** The same turn as the client computes it: position and chunk size are int, and are
      compared with the size of the content as size_t. */
  function IntAdvance(n: nat, i: int): int {
    var curSize := ToInt32(i + ToInt32(n / 5));
    if ToSize(curSize) > n then ToInt32(n) else curSize
  }

  function IntPosition(n: nat, k: nat): int {
    if k == 0 then 0
    else
      var i := IntPosition(n, k - 1);
      if ToSize(i) >= n then i else IntAdvance(n, i)
  }

  lemma IntAdvanceExact(n: nat, i: nat)
    requires i <= n && i + n / 5 <= INT32_MAX
    ensures IntAdvance(n, i) == Advance(n, i, n / 5)
  {
  }

  /** The loop reaches the end in k turns, and no sum of position and chunk size leaves
      int on the way. */
  ghost predicate EndsWithin(n: nat, k: nat) {
    Position(n, k) == n && forall j: nat :: j < k ==> Position(n, j) + n / 5 <= INT32_MAX
  }

  /** Before its end, the loop is where it was plus a multiple of the chunk size. */
  lemma PositionFits(n: nat, j: nat)
    requires Uploadable(n) && FitsInt(n) && j < ChunkCount(n)
    ensures Position(n, j) < n && Position(n, j) + n / 5 <= INT32_MAX
  {
    var c, m := n / 5, ChunkCount(n);
    CountCovers(n);
    PositionIs(n, j);
    Stride(c, j, m);
    assert (m - 1) * c == j * c + (m - 1 - j) * c;
    hide ChunkCount, Position;
  }

  lemma FitsEnds(n: nat)
    requires Uploadable(n) && FitsInt(n)
    ensures EndsWithin(n, ChunkCount(n))
  {
    forall j: nat | j < ChunkCount(n) ensures Position(n, j) + n / 5 <= INT32_MAX {
      PositionFits(n, j);
    }
    if n >= 5 {
      CountCovers(n);
      PositionIs(n, ChunkCount(n));
    }
  }

  lemma EndsFits(n: nat, k: nat)
    requires EndsWithin(n, k)
    ensures Uploadable(n) && FitsInt(n)
  {
    PositionGrows(n, k);
    if n >= 5 {
      var c, m := n / 5, ChunkCount(n);
      CountCovers(n);
      PositionIs(n, k);
      PositionIs(n, m - 1);
      Monotone(c, k, m - 1);
      Stride(c, m - 1, m);
      hide Position, ChunkCount;
      assert k > m - 1;
      assert Position(n, m - 1) + c <= INT32_MAX;
    }
  }

  /** The loop reaches the end of the content without an int overflow if and only if the
      content is empty, or has five bytes or more and the last sum of position and chunk
      size fits into int; with one to four bytes it stays at its start for ever. */
  lemma LoopEndsIff(n: nat)
    ensures (exists k: nat :: EndsWithin(n, k)) <==> Uploadable(n) && FitsInt(n)
    ensures !Uploadable(n) ==> forall k: nat :: IntPosition(n, k) == 0
  {
    if Uploadable(n) && FitsInt(n) {
      FitsEnds(n);
    }
    forall k: nat | EndsWithin(n, k) ensures Uploadable(n) && FitsInt(n) {
      EndsFits(n, k);
    }
    forall k: nat ensures !Uploadable(n) ==> IntPosition(n, k) == 0 {
      if !Uploadable(n) {
        IntPositionExact(n, k);
        PositionGrows(n, k);
      }
    }
  }

  /** Where nothing overflows, the client's int positions are the unbounded ones, and the
      loop goes on exactly until the end. */
  lemma {:induction false} IntPositionExact(n: nat, k: nat)
    requires FitsInt(n)
    ensures IntPosition(n, k) == Position(n, k)
  {
    hide *;
    if k == 0 {
      PositionStarts(n);
    } else {
      IntPositionExact(n, k - 1);
      IntPositionTurn(n, k);
    }
  }

  lemma PositionStarts(n: nat)
    ensures IntPosition(n, 0) == 0 == Position(n, 0)
  {
  }

  lemma IntPositionTurn(n: nat, k: nat)
    requires FitsInt(n) && k > 0 && IntPosition(n, k - 1) == Position(n, k - 1)
    ensures IntPosition(n, k) == Position(n, k)
  {
    hide *;
    var i := Position(n, k - 1);
    SizeFits(n);
    assert ToSize(i) == i;
    TurnFits(n, k - 1);
    IntPositionUnfold(n, k);
    PositionUnfold(n, k);
  }

  lemma IntPositionUnfold(n: nat, k: nat)
    requires k > 0
    ensures IntPosition(n, k)
         == if ToSize(IntPosition(n, k - 1)) >= n then IntPosition(n, k - 1) else IntAdvance(n, IntPosition(n, k - 1))
  {
  }

  lemma PositionUnfold(n: nat, k: nat)
    requires k > 0
    ensures Position(n, k) == Advance(n, Position(n, k - 1), n / 5)
    ensures Position(n, k - 1) == n ==> Position(n, k) == n
  {
  }

  lemma SizeFits(n: nat)
    requires FitsInt(n)
    ensures n <= INT32_MAX
    ensures forall i: nat :: i <= n ==> ToSize(i) == i && ToInt32(i) == i
  {
    if n >= 5 {
      CountCovers(n);
    }
  }

  lemma BeforeEnd(n: nat, k: nat)
    requires n >= 5 && Position(n, k) < n
    ensures k < ChunkCount(n)
  {
    CountCovers(n);
    PositionIs(n, k);
    Monotone(n / 5, ChunkCount(n), k);
    hide Position, ChunkCount;
  }

  lemma TurnFits(n: nat, k: nat)
    requires FitsInt(n)
    ensures Position(n, k) < n ==> IntAdvance(n, Position(n, k)) == Advance(n, Position(n, k), n / 5)
  {
    if Position(n, k) < n {
      if n >= 5 {
        BeforeEnd(n, k);
        PositionFits(n, k);
      } else {
        PositionGrows(n, k);
      }
      hide Position, FitsInt, ChunkCount;
      IntAdvanceExact(n, Position(n, k));
    }
  }

  /** Beyond int, if a sum that overflows wraps round: for 3000000000 bytes the loop ends
      after four turns, where five chunks were due. */
  lemma OverflowEndsEarly()
    ensures var n := 3_000_000_000;
            ChunkCount(n) == 5 && ToSize(IntPosition(n, 4)) >= n
                && forall k: nat :: k < 4 ==> ToSize(IntPosition(n, k)) < n
  {
    var n := 3_000_000_000;
    assert IntPosition(n, 1) == 600_000_000;
    assert IntPosition(n, 2) == 1_200_000_000;
    assert IntPosition(n, 3) == 1_800_000_000;
    forall k: nat | k < 4 ensures ToSize(IntPosition(n, k)) < n {
      assert k == 0 || k == 1 || k == 2 || k == 3;
    }
  }

  /** And for 9000000000 bytes it comes to a position that it never leaves. */
  lemma {:induction false} OverflowStalls(k: nat)
    requires k >= 2
    ensures IntPosition(9_000_000_000, k) == 410_065_408
  {
    if k == 2 {
      assert IntPosition(9_000_000_000, 1) == 1_800_000_000;
    } else {
      OverflowStalls(k - 1);
    }
  }

  // -------------------------------------------------------------------- the two loops

  /** A run in which nothing fails, and what the server draws in it is new. */
  ghost predicate Smooth(s: Server, env: UploadEnv) {
    && env.user.Some? && env.stored && env.inserted && env.found
    && env.uploadId !in s.trackers
    && env.fileId != "" && env.fileId !in s.metas
    && env.path !in s.blobs
  }

  /** The server once count chunks of the content, up to position i, have been sent. */
  ghost function Sent(s: Server, env: UploadEnv, content: string, i: nat, count: nat): Server
    requires env.user.Some? && i <= |content|
  {
    if count == 0 then s
    else Server(
      s.trackers[env.uploadId := Tracker(env.fileId, |content|, i, 5, count)],
      s.metas[env.fileId := Meta(env.user.value, Some(env.path), |content|, "text", Uploading)],
      s.blobs[env.path := content[..i]])
  }

  /** The chunk request of one turn of the loop, for a content of n bytes. */
  function ChunkReq(hash: string -> string, n: nat, data: string, fileId: string,
      uploadId: string, count: int): UploadReq
  {
    UploadReq(fileId, uploadId, count, 5, ToInt32(n), "text", data, hash(data))
  }

  /** What the client holds as an identifier: nothing before its first chunk. */
  function Held(id: string, count: nat): string {
    if count == 0 then "" else id
  }

  lemma TurnSends(hash: string -> string, s: Server, env: UploadEnv, content: string, i: nat, end: nat, count: nat)
    requires Smooth(s, env) && |content| <= INT32_MAX && i <= end <= |content| && count < INT32_MAX
    requires count == 0 ==> i == 0
    ensures var req := ChunkReq(hash, |content|, content[i..end],
        Held(env.fileId, count), Held(env.uploadId, count), count);
            var (s', rsp) := Upload(hash, Sent(s, env, content, i, count), req, env);
            && rsp.code == OK && rsp.fileId == env.fileId && rsp.uploadId == env.uploadId
            && s' == Sent(s, env, content, end, count + 1)
  {
    assert content[..i] + content[i..end] == content[..end];
    if count == 0 {
      assert content[..end] == content[i..end];
    }
  }

  /** After count chunks, up to position i, the pieces from there on are still to be sent. */
  ghost predicate Progress(content: string, i: nat, count: nat) {
    && Uploadable(|content|) && i <= |content| && (i == 0 <==> count == 0)
    && count + |Pieces(content, i, |content| / 5)| == ChunkCount(|content|)
    && (i < |content| ==> i == count * (|content| / 5))
  }

  lemma FirstTurn(content: string)
    requires Uploadable(|content|)
    ensures Progress(content, 0, 0)
  {
    if content != "" {
      SplitterBound(content);
    }
  }

  lemma LastTurn(content: string, count: nat)
    requires Progress(content, |content|, count)
    ensures count == ChunkCount(|content|)
  {
  }

  /** One turn: it takes one piece, and its position fits where the last one fits. */
  lemma Turn(content: string, i: nat, count: nat)
    requires Progress(content, i, count) && i < |content|
    ensures var c := |content| / 5;
            && Advance(|content|, i, c) == (if i + c > |content| then |content| else i + c)
            && i + c <= ChunkCount(|content|) * c
            && |content| >= 5 && count < 9 && (count == 0 ==> i == 0)
            && Progress(content, Advance(|content|, i, c), count + 1)
  {
    var c := |content| / 5;
    SplitterBound(content);
    PiecesStep(content, i, c);
    hide ChunkCount, Pieces;
    Stride(c, count, ChunkCount(|content|));
  }

  lemma PiecesStep(content: string, i: nat, c: nat)
    requires c > 0 && i < |content|
    ensures |Pieces(content, i, c)| == 1 + |Pieces(content, Advance(|content|, i, c), c)|
  {
  }

  lemma Stride(c: nat, count: nat, m: nat)
    requires count < m
    ensures (count + 1) * c == count * c + c <= m * c
  {
    assert m * c == (count + 1) * c + (m - count - 1) * c;
  }

  /** What holds before each turn: the client's variables, and the server's state. */
  ghost predicate LoopInv(before: Server, env: UploadEnv, content: string,
                          s: Server, i: int, count: nat, fileId: string, uploadId: string) {
    && Smooth(before, env) && FitsInt(|content|)
    && 0 <= i <= |content| && Progress(content, i, count)
    && fileId == Held(env.fileId, count) && uploadId == Held(env.uploadId, count)
    && s == Sent(before, env, content, i, count)
  }

  lemma LoopStarts(s: Server, env: UploadEnv, content: string)
    requires Smooth(s, env) && Uploadable(|content|) && FitsInt(|content|)
    ensures LoopInv(s, env, content, s, 0, 0, "", "")
  {
    FirstTurn(content);
    EnvReady(s, env, content);
  }

  lemma LoopEnds(before: Server, env: UploadEnv, content: string, s: Server,
      i: int, count: nat, fileId: string, uploadId: string)
    requires LoopInv(before, env, content, s, i, count, fileId, uploadId) && i >= |content|
    ensures env.user.Some? && s == Sent(before, env, content, |content|, count)
    ensures Uploadable(|content|) && count == ChunkCount(|content|)
    ensures fileId == Held(env.fileId, |content|) && uploadId == Held(env.uploadId, |content|)
  {
    LastTurn(content, count);
    LastCount(content);
    hide Sent, Progress, ChunkCount, Pieces;
  }

  lemma LastSumFits(n: nat)
    requires FitsInt(n) && n >= 5
    ensures ChunkCount(n) * (n / 5) <= INT32_MAX
  {
  }

  /** One turn: its position is exact, its chunk is accepted, and it progresses. */
  lemma TurnKeeps(hash: string -> string, before: Server, env: UploadEnv, content: string,
                  s: Server, i: int, count: nat, fileId: string, uploadId: string)
    requires LoopInv(before, env, content, s, i, count, fileId, uploadId) && i < |content|
    ensures var curSize := ToInt32(i + ToInt32(|content| / 5));
            var end := if ToSize(curSize) > |content| then ToInt32(|content|) else curSize;
            && 0 <= i < end <= |content|
            && var (s', rsp) := Upload(hash, s,
                ChunkReq(hash, |content|, content[i..end], fileId, uploadId, count), env);
               && rsp.code == OK
               && LoopInv(before, env, content, s', end, count + 1, rsp.fileId, rsp.uploadId)
  {
    hide Progress, Upload, Smooth, Sent, ChunkReq, ToSize, ToInt32, FitsInt, ChunkCount, Pieces;
    SizeFits(|content|);
    Turn(content, i, count);
    LastSumFits(|content|);
    AdvancesIff(|content|, i);
    IntAdvanceExact(|content|, i);
    TurnSends(hash, before, env, content, i, IntAdvance(|content|, i), count);
  }

  /** The upload loop: it sends all of the content, no position leaves int, and no
      request is refused. */
  method UploadContent(svc: FileRpcService, content: string, ghost before: Server, env: UploadEnv)
    returns (ok: bool, fileId: string, uploadId: string, count: nat)
    requires Uploadable(|content|) && FitsInt(|content|)
    requires before == svc.View() && Smooth(before, env)
    modifies svc
    ensures ok && count == ChunkCount(|content|)
    ensures fileId == Held(env.fileId, |content|) && uploadId == Held(env.uploadId, |content|)
    ensures svc.View() == Sent(before, env, content, |content|, count)
  {
    hide *;
    LoopStarts(before, env, content);
    var chunkSize := ToInt32(|content| / 5);
    count, fileId, uploadId := 0, "", "";
    var i := 0;
    while i < |content|
      invariant LoopInv(before, env, content, svc.View(), i, count, fileId, uploadId)
      invariant 0 <= i <= |content|
      decreases |content| - i
    {
      TurnKeeps(svc.hash, before, env, content, svc.View(), i, count, fileId, uploadId);
      var curSize := ToInt32(i + chunkSize);
      if ToSize(curSize) > |content| {
        curSize := ToInt32(|content|);
      }
      var req := ChunkReq(svc.hash, |content|, content[i..curSize], fileId, uploadId, count);
      i := curSize;
      var rsp := svc.UploadFile(req, env);
      if rsp.code != OK {
        return false, fileId, uploadId, count;
      }
      fileId := rsp.fileId;
      uploadId := rsp.uploadId;
      count := count + 1;
    }
    LoopEnds(before, env, content, svc.View(), i, count, fileId, uploadId);
    ok := true;
  }

  lemma LastCount(content: string)
    requires Uploadable(|content|)
    ensures ChunkCount(|content|) > 0 <==> content != ""
  {
  }

  lemma EnvReady(s: Server, env: UploadEnv, content: string)
    requires Smooth(s, env)
    ensures env.user.Some? && Sent(s, env, content, 0, 0) == s
  {
  }

  /** The download loop: chunk by chunk, as many as were announced. */
  method DownloadContent(svc: FileRpcService, fileId: string, total: nat, env: DownloadEnv, blockSize: nat -> nat)
    returns (ok: bool, contents: string)
    requires env.user.Some? && env.found && env.read
    requires fileId in svc.metas && svc.metas[fileId].status == Success && svc.metas[fileId].size != 0
    requires svc.metas[fileId].path.Some? && svc.metas[fileId].path.value in svc.blobs
    ensures ok && contents == Served(svc.blobs[svc.metas[fileId].path.value], total)
  {
    contents := "";
    for i := 0 to total
      invariant contents == Served(svc.blobs[svc.metas[fileId].path.value], i)
    {
      var code, data := svc.DownloadFile(fileId, i, env, blockSize);
      if code != OK {
        return false, contents;
      }
      contents := contents + data;
    }
    ok := true;
  }

  /** The server once the upload has been completed. */
  ghost function Finished(before: Server, env: UploadEnv, content: string, count: nat): Server
    requires env.user.Some?
  {
    Server(before.trackers[env.uploadId := Tracker(env.fileId, |content|, |content|, 5, count)],
           before.metas[env.fileId := Meta(env.user.value, Some(env.path), |content|, "text", Success)],
           before.blobs[env.path := content])
  }

  lemma SentFinishes(before: Server, env: UploadEnv, content: string, count: nat)
    requires Smooth(before, env) && |content| <= INT32_MAX && count > 0
    ensures Complete(Sent(before, env, content, |content|, count), env.fileId, CompleteEnv(env.user, true, true, true))
         == (Finished(before, env, content, count), OK)
  {
    assert content[..|content|] == content;
    var meta := Meta(env.user.value, Some(env.path), |content|, "text", Uploading);
    assert before.metas[env.fileId := meta] - {env.fileId} == before.metas;
  }

  lemma FinishedData(before: Server, env: UploadEnv, content: string, count: nat)
    requires env.user.Some? && |content| <= INT32_MAX
    ensures FileDataOf(Finished(before, env, content, count), env.fileId, true)
         == FileData(OK, |content|, Chunks(|content|))
  {
    FewChunks(|content|);
  }

  lemma NothingToFinish(s: Server, env: UploadEnv)
    requires env.user.Some? && "" !in s.metas
    ensures var (s', code) := Complete(s, "", CompleteEnv(env.user, true, true, true)); s' == s && code != OK
  {
  }

  lemma EnvUser(s: Server, env: UploadEnv)
    requires Smooth(s, env)
    ensures env.user.Some?
  {
  }

  /** The whole exchange of the client: upload, completion, file data, download, and the
      comparison at its end. It succeeds if and only if there is any content; an empty
      one uploads no chunk, so there is no file to complete. */
  method Exchange(svc: FileRpcService, content: string, env: UploadEnv, blockSize: nat -> nat)
    returns (ok: bool, contents: string)
    requires Uploadable(|content|) && FitsInt(|content|)
    requires Smooth(svc.View(), env)
    requires content == "" ==> "" !in svc.metas
    modifies svc
    ensures ok <==> content != ""
    ensures ok ==> contents == content
    ensures ok ==>
              svc.metas == old(svc.metas)[env.fileId :=
                  Meta(env.user.value, Some(env.path), |content|, "text", Success)]
    ensures ok ==> svc.blobs == old(svc.blobs)[env.path := content]
    ensures ok ==> svc.View() == Finished(old(svc.View()), env, content, ChunkCount(|content|))
    ensures !ok ==> svc.View() == old(svc.View())
  {
    hide Upload, Complete, ChunkCount, FitsInt, FileDataOf, Download, Chunks, Served, Sent, Smooth;
    EnvUser(svc.View(), env);
    ghost var before := svc.View();
    var fileId, uploadId, count;
    ok, fileId, uploadId, count := UploadContent(svc, content, before, env);
    if !ok {
      return false, "";
    }
    ContentFits(content);
    LastCount(content);
    if content == "" {
      EnvReady(before, env, content);
      NothingToFinish(before, env);
    } else {
      SentFinishes(before, env, content, count);
      FinishedData(before, env, content, count);
    }
    var code := svc.CompleteFileUpload(fileId, CompleteEnv(env.user, true, true, true));
    if code != OK {
      return false, "";
    }
    assert svc.View() == Finished(before, env, content, count);
    var data := svc.GetFileData(fileId, true);
    if data.code != OK {
      return false, "";
    }
    DownloadTiling(content);
    ok, contents := DownloadContent(svc, fileId, data.total, DownloadEnv(env.user, true, true), blockSize);
    ok := ok && |contents| == data.size && contents == content;
  }

  lemma ContentFits(content: string)
    requires FitsInt(|content|)
    ensures |content| <= INT32_MAX && Chunks(|content|) <= INT32_MAX
  {
    SizeFits(|content|);
    FewChunks(|content|);
  }

  // ------------------------------------------------- turns of the loop, for any content

  /** The client's variables, and the server; position and count are int. */
  datatype Client = Client(server: Server, position: int, fileId: string, uploadId: string, count: int, refused: bool)

  /** std::string::substr. */
  function Substr(content: string, begin: nat, length: nat): string
    requires begin <= |content|
  {
    content[begin..if begin + length > |content| then |content| else begin + length]
  }

  /** The data of the turn at a position before the end. */
  function TurnData(content: string, position: int): string
    requires ToSize(position) < |content|
  {
    Substr(content, ToSize(position), ToSize(ToInt32(IntAdvance(|content|, position) - position)))
  }

  lemma TurnDataExact(content: string, i: nat)
    requires FitsInt(|content|) && i < |content|
    requires IntAdvance(|content|, i) == Advance(|content|, i, |content| / 5)
    ensures ToSize(i) == i && TurnData(content, i) == content[i..Advance(|content|, i, |content| / 5)]
  {
    SizeFits(|content|);
    var end := Advance(|content|, i, |content| / 5);
    assert ToInt32(end - i) == end - i && ToSize(end - i) == end - i;
    hide ToInt32, ToSize, IntAdvance, Advance, FitsInt;
  }

  /** What the first k turns send, if there are as many. */
  function SentData(content: string, k: nat): seq<string> {
    if k == 0 then []
    else
      var i := IntPosition(|content|, k - 1);
      SentData(content, k - 1) + if ToSize(i) >= |content| then [] else [TurnData(content, i)]
  }

  lemma {:induction false} SentPieces(content: string, k: nat)
    requires |content| >= 5 && FitsInt(|content|)
    ensures var c := |content| / 5;
            SentData(content, k) + Pieces(content, Position(|content|, k), c) == Pieces(content, 0, c)
  {
    hide *;
    if k == 0 {
      SentStarts(content);
      assert [] + Pieces(content, 0, |content| / 5) == Pieces(content, 0, |content| / 5);
    } else {
      SentPieces(content, k - 1);
      SentTurn(content, k);
    }
  }

  lemma SentStarts(content: string)
    ensures SentData(content, 0) == [] && Position(|content|, 0) == 0
  {
  }

  lemma SentTurn(content: string, k: nat)
    requires |content| >= 5 && FitsInt(|content|) && k > 0
    ensures var c := |content| / 5;
            SentData(content, k) + Pieces(content, Position(|content|, k), c)
              == SentData(content, k - 1) + Pieces(content, Position(|content|, k - 1), c)
  {
    hide *;
    var n, c, i := |content|, |content| / 5, Position(|content|, k - 1);
    IntPositionExact(n, k - 1);
    SizeFits(n);
    assert ToSize(i) == i;
    TurnFits(n, k - 1);
    PositionUnfold(n, k);
    SentUnfold(content, k);
    if i < n {
      TurnDataExact(content, i);
      PiecesUnfold(content, i, c);
    } else {
      assert SentData(content, k - 1) + [] == SentData(content, k - 1);
    }
  }

  lemma SentUnfold(content: string, k: nat)
    requires k > 0
    ensures var i := IntPosition(|content|, k - 1);
            SentData(content, k)
              == SentData(content, k - 1) + if ToSize(i) >= |content| then [] else [TurnData(content, i)]
  {
  }

  lemma PiecesUnfold(content: string, i: nat, c: nat)
    requires i < |content| && c > 0
    ensures var end := Advance(|content|, i, c);
            Pieces(content, i, c) == [content[i..end]] + Pieces(content, end, c)
  {
  }

  /** Splitter: where no position overflows, the turns of the int loop come to the end, and
      not before the last of them; and what they send are exactly 5 + ceil((n mod 5) /
      (n div 5)) chunks, between 5 and 9, that join to the content. */
  lemma SplitterSends(content: string)
    requires |content| >= 5 && FitsInt(|content|)
    ensures var m := ChunkCount(|content|);
            && 5 <= m <= 9 && |SentData(content, m)| == m && Flatten(SentData(content, m)) == content
            && IntPosition(|content|, m) == |content|
            && forall k: nat :: k < m ==> 0 <= IntPosition(|content|, k) < |content|
  {
    var n, m := |content|, ChunkCount(|content|);
    hide *;
    SplitterBound(content);
    SentPieces(content, m);
    FitsEnds(n);
    AtEnd(content, m);
    IntPositionExact(n, m);
    forall k: nat | k < m ensures 0 <= IntPosition(n, k) < n {
      IntPositionExact(n, k);
      PositionFits(n, k);
    }
    assert SentData(content, m) + [] == SentData(content, m);
  }

  lemma AtEnd(content: string, k: nat)
    requires EndsWithin(|content|, k)
    ensures Position(|content|, k) == |content| && Pieces(content, |content|, |content| / 5) == []
  {
  }

  /** One turn: a refusal ends the program. */
  function TakeTurn(hash: string -> string, env: UploadEnv, content: string, c: Client): Client {
    if c.refused || ToSize(c.position) >= |content| then c
    else
      var end := IntAdvance(|content|, c.position);
      var req := ChunkReq(hash, |content|, TurnData(content, c.position), c.fileId, c.uploadId, c.count);
      var (server, rsp) := Upload(hash, c.server, req, env);
      if rsp.code != OK then c.(server := server, position := end, refused := true)
      else Client(server, end, rsp.fileId, rsp.uploadId, ToInt32(c.count + 1), false)
  }

  function Turns(hash: string -> string, env: UploadEnv, content: string, s: Server, k: nat): (c: Client) {
    if k == 0 then Client(s, 0, "", "", 0, false) else TakeTurn(hash, env, content, Turns(hash, env, content, s, k - 1))
  }

  /** As long as nothing is refused, the position depends on the length alone; and where
      nothing overflows, it is the unbounded one. */
  lemma {:induction false} TurnsPosition(hash: string -> string, env: UploadEnv, content: string, s: Server, k: nat)
    ensures var c := Turns(hash, env, content, s, k);
            !c.refused ==> c.position == IntPosition(|content|, k)
                           && (FitsInt(|content|) ==> c.position == Position(|content|, k))
  {
    if FitsInt(|content|) {
      IntPositionExact(|content|, k);
    }
    hide Upload, ChunkReq, IntAdvance, TurnData, FitsInt, Position, ToSize, ToInt32;
    if k > 0 {
      TurnsPosition(hash, env, content, s, k - 1);
    }
  }

  /** The client after k accepted turns that sent nothing. */
  ghost function Stalled(s: Server, env: UploadEnv, content: string, k: nat): Client
    requires env.user.Some?
  {
    Client(Sent(s, env, content, 0, k), 0, Held(env.fileId, k), Held(env.uploadId, k), k, false)
  }

  lemma StalledTurn(hash: string -> string, s: Server, env: UploadEnv, content: string, k: nat)
    requires Smooth(s, env) && 1 <= |content| <= 4 && k < INT32_MAX
    ensures TakeTurn(hash, env, content, Stalled(s, env, content, k)) == Stalled(s, env, content, k + 1)
  {
    IntAdvanceExact(|content|, 0);
    assert Advance(|content|, 0, |content| / 5) == 0;
    TurnDataExact(content, 0);
    TurnSends(hash, s, env, content, 0, 0, k);
    assert ToInt32(k + 1) == k + 1;
    hide Upload, ChunkReq, Sent, Advance, IntAdvance, TurnData, ToInt32, ToSize;
  }

  /** The stall: with one to four bytes and a server that refuses nothing, every turn that
      int can count sends an empty chunk that is accepted, and the loop is where it was. */
  lemma {:induction false} StalledUpload(hash: string -> string, s: Server, env: UploadEnv, content: string, k: nat)
    requires Smooth(s, env) && 1 <= |content| <= 4 && k <= INT32_MAX
    ensures Turns(hash, env, content, s, k) == Stalled(s, env, content, k)
  {
    hide *;
    EnvReady(s, env, content);
    UnfoldTurns(hash, env, content, s, k);
    if k == 0 {
      StalledStart(s, env, content);
    } else {
      StalledUpload(hash, s, env, content, k - 1);
      StalledTurn(hash, s, env, content, k - 1);
    }
  }

  lemma StalledStart(s: Server, env: UploadEnv, content: string)
    requires env.user.Some?
    ensures Stalled(s, env, content, 0) == Client(s, 0, "", "", 0, false)
  {
  }

  lemma UnfoldTurns(hash: string -> string, env: UploadEnv, content: string, s: Server, k: nat)
    ensures Turns(hash, env, content, s, k)
         == if k == 0 then Client(s, 0, "", "", 0, false)
            else TakeTurn(hash, env, content, Turns(hash, env, content, s, k - 1))
  {
  }

  // ------------------------------------------------------------- among other uploads

  function Datas(chunks: seq<Chunk>): seq<string> {
    seq(|chunks|, i requires 0 <= i < |chunks| => chunks[i].data)
  }

  lemma {:induction false} BytesFlatten(chunks: seq<Chunk>)
    ensures Bytes(chunks) == Flatten(Datas(chunks))
    decreases |chunks|
  {
    if chunks != [] {
      var n := |chunks| - 1;
      BytesFlatten(chunks[..n]);
      assert Datas(chunks) == Datas(chunks[..n]) + [chunks[n].data];
      FlattenAppend(Datas(chunks[..n]), chunks[n].data);
    }
  }

  /** Whatever other uploads and images are served in between, and whatever rows and blobs
      there are from before, an upload whose accepted chunks are the client's pieces ends
      as a blob with the client's bytes. */
  lemma InterleavedUpload(hash: string -> string, w: World, events: seq<Event>, u: string, content: string)
    requires Consistent(w) && AllAdmissible(hash, w, events) && |content| >= 5
    requires u in Run(hash, w, events).ledger
    requires Datas(Run(hash, w, events).ledger[u].chunks) == Pieces(content, 0, |content| / 5)
    ensures var w' := Run(hash, w, events);
            w'.ledger[u].path in w'.server.blobs && w'.server.blobs[w'.ledger[u].path] == content
  {
    StoredExactlyOnce(hash, w, events);
    StoredAt(Run(hash, w, events), u);
    BytesFlatten(Run(hash, w, events).ledger[u].chunks);
    SplitterBound(content);
  }
}
