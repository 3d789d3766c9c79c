/** The S3 driver's write: one request, or an upload in parts, over an unreliable link. */
module S3Upload {
  import opened Prelude
  import opened Text
  import opened Keys
  import opened ObjectServer
  import opened Retry

  const MULTIPART_THRESHOLD := 16 * 1024 * 1024
  const PART_SIZE := 16 * 1024 * 1024

  // ---------------------------------------------------------------- readers

  /** How a stream ends after its last byte: properly, with io.ErrUnexpectedEOF, or with any
      other error. */
  datatype StreamEnd = Proper | Truncated | Broken

  /** The error of io.ReadFull: none, io.EOF, io.ErrUnexpectedEOF, or another. */
  datatype ReadError = NoError | EOF | UnexpectedEOF | Other

  function Cut(s: bytes, n: nat): bytes {
    if |s| <= n then s else s[..n]
  }

  function ReadErrorOf(got: nat, want: nat, end: StreamEnd): ReadError {
    if got == want then NoError
    else if end == Broken then Other
    else if got == 0 && end == Proper then EOF
    else UnexpectedEOF
  }

  class Reader {
    const end: StreamEnd
    var rest: bytes

    constructor (data: bytes, end: StreamEnd)
      ensures rest == data && this.end == end
    {
      rest := data;
      this.end := end;
    }

    /** Stands in for io.ReadFull into a buffer of `n` bytes. */
    method ReadFull(n: nat) returns (got: bytes, err: ReadError)
      modifies this
      ensures got == Cut(old(rest), n) && rest == old(rest)[|got|..]
      ensures err == ReadErrorOf(|got|, n, end)
    {
      got := Cut(rest, n);
      rest := rest[|got|..];
      err := ReadErrorOf(|got|, n, end);
    }
  }

  // ---------------------------------------------------------------- what ends up stored

  function Zeros(n: nat): bytes {
    seq(n, _ => 0)
  }

  /** What a write that succeeds leaves under its key; none when the reader makes it fail. */
  function Stored(size: int, data: bytes, end: StreamEnd): Option<bytes> {
    if 0 <= size <= MULTIPART_THRESHOLD then
      if |data| >= size then Some(data[..size])
      else if data == [] && end == Proper then Some(Zeros(size))
      else None
    else if end == Broken then None
    else Some(data)
  }

  lemma SizedRead(size: nat, data: bytes, end: StreamEnd)
    requires size <= MULTIPART_THRESHOLD
    ensures Stored(size, data, end) == match ReadErrorOf(|Cut(data, size)|, size, end)
                                       case NoError => Some(Cut(data, size))
                                       case EOF => Some(Zeros(size))
                                       case _ => None
  {
    if |data| >= size { assert Cut(data, size) == data[..size]; }
  }

  /** What a reader of `whole` can come up with: all of it, or, when it is cut short or
      breaks, some beginning of it. */
  predicate Yields(whole: bytes, data: bytes, end: StreamEnd) {
    data <= whole && (end == Proper ==> data == whole)
  }

  lemma DeclaredCut(size: nat, whole: bytes, data: bytes)
    requires data <= whole && size <= |data|
    ensures data[..size] == whole <==> |whole| == size
  {
    assert |data[..size]| == size;
    if |whole| == size { assert data[..size] == whole; }
  }

  /** A successful write stores the whole object exactly when the reader delivered all of it
      and, up to the threshold, its length is the declared one. */
  lemma FaithfulExactly(size: int, whole: bytes, data: bytes, end: StreamEnd)
    requires Yields(whole, data, end)
    ensures Stored(size, data, end) == Some(whole)
            <==> data == whole && if 0 <= size <= MULTIPART_THRESHOLD then |whole| == size else end != Broken
  {
    if 0 <= size <= MULTIPART_THRESHOLD {
      if size <= |data| { DeclaredCut(size, whole, data); }
      assert |Zeros(size)| == size;
    }
  }

  /** A write succeeds and stores something else exactly when a declared size up to the
      threshold cuts a longer object or meets an empty one, or when, on the other paths, the
      reader was cut short. */
  lemma SilentlyWrongExactly(size: int, whole: bytes, data: bytes, end: StreamEnd)
    requires Yields(whole, data, end)
    ensures Stored(size, data, end).Some? && Stored(size, data, end).value != whole
            <==> if 0 <= size <= MULTIPART_THRESHOLD
                 then (size <= |data| && size < |whole|) || (data == [] && end == Proper && size > 0)
                 else end == Truncated && data != whole
  {
    if 0 <= size <= MULTIPART_THRESHOLD {
      if size <= |data| { DeclaredCut(size, whole, data); }
      assert |Zeros(size)| == size;
    }
  }

  /** A stream cut short by io.ErrUnexpectedEOF is accepted on the multipart and the unsized
      path whatever its length, and on the single-request path only when enough has come. */
  lemma TruncatedExactly(size: int, data: bytes)
    ensures Stored(size, data, Truncated).Some? <==> !(0 <= size <= MULTIPART_THRESHOLD) || |data| >= size
  {
  }

  /** The declared size is the size of the stored object up to the threshold; above it, only
      when the stream happens to have it. */
  lemma DeclaredSizeExactly(size: nat, data: bytes, end: StreamEnd)
    requires Stored(size, data, end).Some?
    ensures |Stored(size, data, end).value| == size <==> size <= MULTIPART_THRESHOLD || |data| == size
  {
    assert |Zeros(size)| == size;
  }

  /** Inputs on which a write succeeds and stores the wrong bytes: a stream cut short, of
      unknown size and of a declared size above the threshold; a stream longer than declared;
      an empty one. */
  lemma SilentlyWrongWitnesses()
    ensures Yields([1, 2], [1], Truncated)
    ensures Stored(-1, [1], Truncated) == Some([1])
    ensures Stored(16_777_217, [1], Truncated) == Some([1]) && Stored(16_777_216, [1], Truncated) == None
    ensures Stored(1, [1, 2], Proper) == Some([1])
    ensures Stored(1, [], Proper) == Some([0])
    ensures Stored(16_777_217, [], Proper) == Some([]) && Stored(16_777_216, [], Proper) != Some([])
  {
    var two: bytes := [1, 2];
    assert two[..1] == [1];
    assert Zeros(1) == [0] && |Zeros(16_777_216)| == 16_777_216;
  }

  // ---------------------------------------------------------------- parts

  /** Part number `n`, counted from 1. */
  function Part(data: bytes, n: int): bytes {
    var start := (n - 1) * PART_SIZE;
    if 0 <= start <= |data| then Cut(data[start..], PART_SIZE) else []
  }

  /** Parts 1 to k of the stream. */
  function PartsUpTo(data: bytes, k: nat): Parts {
    map n | 1 <= n <= k :: n := Part(data, n)
  }

  function Numbers(k: nat): seq<int> {
    seq(k, i => i + 1)
  }

  function PartCount(data: bytes): nat {
    (|data| + PART_SIZE - 1) / PART_SIZE
  }

  lemma NumbersAreKeys(data: bytes, k: nat, m: nat)
    requires k <= m
    ensures forall n :: n in Numbers(k) ==> n in PartsUpTo(data, m)
    ensures Ascending(Numbers(k)) && |Numbers(k)| == k
    ensures k > 0 ==> Numbers(k)[k - 1] == k && Numbers(k)[..k - 1] == Numbers(k - 1)
  {
  }

  lemma CutMore(data: bytes, a: nat, n: nat)
    requires a <= |data|
    ensures Cut(data, a) + Cut(data[a..], n) == Cut(data, a + n)
  {
    assert data[..a] + data[a..] == data;
    if |data| > a + n { assert data[..a] + data[a..][..n] == data[..a + n]; }
  }

  lemma StartsInside(data: bytes, n: int)
    requires 1 <= n <= PartCount(data)
    ensures 0 <= (n - 1) * PART_SIZE < |data|
    ensures n < PartCount(data) ==> n * PART_SIZE < |data|
    ensures n == PartCount(data) ==> |data| <= n * PART_SIZE
  {
  }

  lemma {:induction false} AssembleUpTo(data: bytes, k: nat, m: nat)
    requires k <= m && m <= PartCount(data)
    ensures forall n :: n in Numbers(k) ==> n in PartsUpTo(data, m)
    ensures Assemble(PartsUpTo(data, m), Numbers(k)) == Cut(data, k * PART_SIZE)
  {
    NumbersAreKeys(data, k, m);
    if k > 0 {
      AssembleUpTo(data, k - 1, m);
      StartsInside(data, k);
      assert PartsUpTo(data, m)[k] == Part(data, k);
      CutMore(data, (k - 1) * PART_SIZE, PART_SIZE);
    }
  }

  /** Parts are numbered 1 to n without gaps, all but the last are full and the last is not
      empty. */
  lemma PartsAreFull(data: bytes, n: int)
    requires 1 <= n <= PartCount(data)
    ensures n in PartsUpTo(data, PartCount(data)) && Numbers(PartCount(data))[n - 1] == n
    ensures n < PartCount(data) ==> |Part(data, n)| == 16_777_216
    ensures n == PartCount(data) ==> 0 < |Part(data, n)| <= 16_777_216
  {
    StartsInside(data, n);
  }

  /** Together the parts are the stream, whether the server puts together the listed ones or
      all it was sent. */
  lemma PartsAreTheStream(data: bytes)
    ensures var n, parts := PartCount(data), PartsUpTo(data, PartCount(data));
            && (forall k :: k in Numbers(n) ==> k in parts)
            && SortedNumbers(parts.Keys) == Numbers(n)
            && Assemble(parts, Numbers(n)) == data
  {
    var n := PartCount(data);
    AssembleUpTo(data, n, n);
    NumbersAreKeys(data, n, n);
    var keys := PartsUpTo(data, n).Keys;
    forall k ensures k in SortedNumbers(keys) <==> k in Numbers(n) {
      assert k in keys <==> 1 <= k <= n;
      if 1 <= k <= n { assert Numbers(n)[k - 1] == k; }
    }
    AscendingUnique(SortedNumbers(keys), Numbers(n));
    if n > 0 { StartsInside(data, n); }
  }

  // ---------------------------------------------------------------- the server during an upload

  /** An upload open at the start is as it was; one opened since is empty, if still there. */
  ghost predicate KeptAt(before: Server, now: Server, u: int) {
    if u < before.nextId then Lookup(now.uploads, u) == Lookup(before.uploads, u)
    else u in now.uploads ==> now.uploads[u] == map[]
  }

  ghost predicate OthersKept(before: Server, now: Server, id: int) {
    forall u :: u != id ==> KeptAt(before, now, u)
  }

  /** No upload is left open with parts in it. */
  ghost predicate NothingLeft(before: Server, now: Server) {
    forall u :: KeptAt(before, now, u)
  }

  /** The upload in progress holds these parts; nothing else has changed. */
  ghost predicate InProgress(before: Server, now: Server, id: int, parts: Parts) {
    && ServerOk(now) && now.strict == before.strict && now.objects == before.objects
    && before.nextId <= id && Lookup(now.uploads, id) == Some(parts)
    && OthersKept(before, now, id)
  }

  /** Without any retry budget nothing is ever sent. */
  ghost predicate Progress(cfg: RetryConfig, before: Server, now: Server, id: int, parts: Parts) {
    if cfg.maxRetries < 0 then now == before && id == -1 else InProgress(before, now, id, parts)
  }

  /** All that is certain once a step has failed. */
  ghost predicate Stopped(cfg: RetryConfig, before: Server, now: Server, id: int) {
    && now.objects == before.objects && OthersKept(before, now, id) && (id == -1 || before.nextId <= id)
    && (cfg.maxRetries < 0 ==> now == before && id == -1)
  }

  lemma Unmoved(before: Server)
    requires ServerOk(before)
    ensures OthersKept(before, before, -1) && NothingLeft(before, before)
  {
  }

  lemma SameUploads(before: Server, now: Server)
    requires ServerOk(before) && now.uploads == before.uploads
    ensures NothingLeft(before, now)
  {
  }

  /** What is left of the stream starts with part `num`. */
  ghost predicate AtPart(rest: bytes, data: bytes, num: int) {
    0 <= (num - 1) * PART_SIZE <= |data| && rest == data[(num - 1) * PART_SIZE..]
  }

  lemma ReadPart(data: bytes, num: nat, chunk: bytes)
    requires num >= 1 && (num - 1) * PART_SIZE <= |data| && chunk == Cut(data[(num - 1) * PART_SIZE..], PART_SIZE)
    ensures chunk == Part(data, num)
    ensures |chunk| == PART_SIZE ==>
              data[(num - 1) * PART_SIZE..][|chunk|..] == data[num * PART_SIZE..] && num * PART_SIZE <= |data|
    ensures |chunk| < PART_SIZE ==> PartCount(data) == if |chunk| > 0 then num else num - 1
  {
  }

  lemma UploadOpened(before: Server, key: string, trace: seq<Fault>)
    requires ServerOk(before)
    ensures var now := Tried(before, CreateUpload(key), trace);
            && ServerOk(now) && now.objects == before.objects && NothingLeft(before, now)
            && (trace != [] && !AnswerAt(before, CreateUpload(key), trace, |trace| - 1).Refused? ==>
                  && AnswerAt(before, CreateUpload(key), trace, |trace| - 1) == Opened(now.nextId - 1)
                  && InProgress(before, now, now.nextId - 1, map[]))
  {
    OnlyEmptyUploads(before, key, trace);
    if trace != [] { OnlyEmptyUploads(before, key, trace[..|trace| - 1]); }
  }

  lemma PartAdded(before: Server, now: Server, id: int, parts: Parts, num: int, data: bytes)
    requires InProgress(before, now, id, parts)
    ensures InProgress(before, Effect(now, UploadPart(id, num, data)).0, id, parts[num := data])
  {
    var next := Effect(now, UploadPart(id, num, data)).0;
    forall u | u != id ensures KeptAt(before, next, u) { assert KeptAt(before, now, u); }
  }

  lemma NextPart(data: bytes, k: nat)
    ensures PartsUpTo(data, k)[k + 1 := Part(data, k + 1)] == PartsUpTo(data, k + 1)
    ensures Numbers(k) + [k + 1] == Numbers(k + 1)
  {
  }

  lemma Closed(before: Server, now: Server, id: int, done: Server)
    requires OthersKept(before, now, id) && (id == -1 || before.nextId <= id)
    requires done.uploads == now.uploads - {id} && -1 !in before.uploads && before.nextId >= 0
    ensures NothingLeft(before, done)
  {
    forall u ensures KeptAt(before, done, u) { assert u != id ==> KeptAt(before, now, u); }
  }

  /** Completing stores the whole stream under the key and closes the upload, or is refused. */
  lemma Completed(before: Server, now: Server, id: int, key: string, data: bytes)
    requires ServerOk(before) && InProgress(before, now, id, PartsUpTo(data, PartCount(data)))
    ensures var op := CompleteUpload(id, key, Numbers(PartCount(data)));
            var (done, reply) := Effect(now, op);
            if reply.Refused? then done == now
            else done.objects == before.objects[key := data] && NothingLeft(before, done)
  {
    PartsAreTheStream(data);
    var done := Effect(now, CompleteUpload(id, key, Numbers(PartCount(data)))).0;
    if id !in done.uploads { Closed(before, now, id, done); }
  }

  /** Only a strict server refuses, and only when there is no part at all. */
  lemma Granted(before: Server, now: Server, id: int, key: string, data: bytes)
    requires InProgress(before, now, id, PartsUpTo(data, PartCount(data)))
    ensures Effect(now, CompleteUpload(id, key, Numbers(PartCount(data)))).1.Refused? <==> before.strict && data == []
  {
    NumbersAreKeys(data, PartCount(data), PartCount(data));
    assert PartCount(data) == 0 <==> data == [];
  }

  // ---------------------------------------------------------------- the driver

  /** The key a path is stored under; interior segments are left alone. */
  function CleanKey(path: string): string {
    TrimPrefix(ReplaceBackslashes(path), "/")
  }

  /** Paths share a key when they are the same with slashes for backslashes, but for one leading
      slash; a canonical path is its own key. */
  lemma SharedKeys(p: string, q: string)
    ensures var a, b := ReplaceBackslashes(p), ReplaceBackslashes(q);
            CleanKey(p) == CleanKey(q) <==> a == b || (a == "/" + b && !("/" <= b)) || (b == "/" + a && !("/" <= a))
    ensures Canonical(p) ==> CleanKey(p) == p
    ensures CleanKey("/a.txt") == CleanKey("a.txt") == "a.txt" != CleanKey("b.txt")
  {
    var a, b := ReplaceBackslashes(p), ReplaceBackslashes(q);
    assert "/" <= a ==> a == "/" + a[1..];
    assert "/" <= b ==> b == "/" + b[1..];
    if Canonical(p) {
      NoBackslashes(p);
      CanonicalEnds(p);
    }
    NoBackslashes("/a.txt");
    NoBackslashes("a.txt");
    NoBackslashes("b.txt");
    assert "/a.txt" == "/" + "a.txt" && "a.txt"[0] != '/' && "b.txt"[0] == 'b' && "a.txt"[0] == 'a';
  }

  class Driver {
    const client: Link
    const retryCfg: RetryConfig

    constructor (client: Link, retryCfg: RetryConfig)
      ensures this.client == client && this.retryCfg == retryCfg
    {
      this.client, this.retryCfg := client, retryCfg;
    }

    /** One retried request that opens no upload: delivered in effect once, or not at all. */
    method Request(op: Op) returns (ok: bool)
      requires !op.CreateUpload?
      modifies client
      ensures client.server in {old(client.server), Effect(old(client.server), op).0}
      ensures retryCfg.maxRetries < 0 ==> ok && client.server == old(client.server)
      ensures ok && retryCfg.maxRetries >= 0 ==>
                client.server == Effect(old(client.server), op).0 && !Effect(old(client.server), op).1.Refused?
      ensures Later(old(client.sent), old(client.checks))
      ensures old(Healthy()) ==>
                && client.server == Effect(old(client.server), op).0
                && (ok <==> !Effect(old(client.server), op).1.Refused?
                            && (op.CompleteUpload? ==> AnswerComesFirst(client.faults, old(client.sent))))
      ensures old(Healthy()) ==> Healthy()
      ensures old(NoAnswerLost()) ==> NoAnswerLost()
    {
      ghost var before, healthy, sent := client.server, Healthy(), client.sent;
      var outcome, _, trace := ExecuteWithRetry(client, retryCfg, op);
      AtMostOnce(before, op, trace);
      if Answered(before, op, trace) { AnsweredOnce(before, op, trace); }
      ok := outcome.Success?;
      if healthy {
        var k: nat := SeriesEnds(before, op, sent, outcome, trace);
        TakesEffect(before, op, trace);
        FirstOf(sent, k, trace);
      }
    }

    /** The link recovers within the retry budget whenever it fails, and the context lives. */
    ghost predicate Healthy()
      reads client
    {
      Recovers(client, retryCfg.maxRetries)
    }

    /** The link has been used since, if at all. */
    ghost predicate Later(sent: nat, checks: nat)
      reads client
    {
      sent <= client.sent && checks <= client.checks
    }

    /** From here on no answer is lost. */
    ghost predicate NoAnswerLost()
      reads client
    {
      forall n: nat :: client.sent <= n ==> !client.faults(n).LoseReply?
    }

    lemma HasBudget()
      requires Healthy()
      ensures retryCfg.maxRetries >= 0
    {
      assert RecoversAt(client.faults, client.sent, retryCfg.maxRetries);
    }

    /** A link that recovers and loses no answer answers whatever gets through first. */
    lemma AnswersFirst()
      requires Healthy() && NoAnswerLost()
      ensures AnswerComesFirst(client.faults, client.sent)
    {
      assert RecoversAt(client.faults, client.sent, retryCfg.maxRetries);
      var k: nat :| k <= retryCfg.maxRetries && GetsThrough(client.faults, client.sent, k);
      forall i | client.sent <= i < client.sent + k ensures client.faults(i).LoseRequest? {
        assert client.faults(i) in {LoseRequest(true), LoseReply(true)} && !client.faults(i).LoseReply?;
      }
      assert AnsweredAfter(client.faults, client.sent, k);
    }

    lemma SeriesEnds(before: Server, op: Op, sent: nat, outcome: Outcome, trace: seq<Fault>) returns (k: nat)
      requires RecoversAt(client.faults, sent, retryCfg.maxRetries)
      requires Meets(client.faults, sent, trace) && |trace| <= Tries(retryCfg) && Persistent(before, op, trace)
      requires !outcome.Cancelled?
      requires outcome.Success? <==> retryCfg.maxRetries < 0 || Answered(before, op, trace)
      requires outcome.Failure? <==> GaveUp(retryCfg, before, op, trace)
      ensures |trace| == k + 1 && trace[k] == Deliver && forall i :: 0 <= i < k ==> !trace[i].Deliver?
      ensures outcome.Success? <==> !AnswerAt(before, op, trace, k).Refused?
    {
      k :| k <= retryCfg.maxRetries && GetsThrough(client.faults, sent, k);
      EndsThere(retryCfg, before, op, client.faults, sent, k, outcome, trace);
    }

    lemma FirstOf(sent: nat, k: nat, trace: seq<Fault>)
      requires Meets(client.faults, sent, trace) && |trace| == k + 1 && trace[k] == Deliver
      requires forall i :: 0 <= i < k ==> !trace[i].Deliver?
      ensures FirstAnswered(trace) <==> AnswerComesFirst(client.faults, sent)
    {
      assert client.faults(sent + k) == trace[k];
      if FirstAnswered(trace) {
        forall i | sent <= i < sent + k ensures client.faults(i).LoseRequest? {
          assert client.faults(i) == trace[i - sent];
        }
        assert AnsweredAfter(client.faults, sent, k);
      }
      if AnswerComesFirst(client.faults, sent) {
        var m: nat :| AnsweredAfter(client.faults, sent, m);
        assert trace[if m < k then m else k] == client.faults(sent + if m < k then m else k);
        forall i | 0 <= i < |trace| ensures !trace[i].LoseReply? {
          assert trace[i] == client.faults(sent + i);
        }
      }
    }

    method PutSingleObject(key: string, data: bytes) returns (ok: bool)
      modifies client
      ensures client.server.uploads == old(client.server.uploads)
      ensures client.server.objects in {old(client.server.objects), old(client.server.objects)[key := data]}
      ensures retryCfg.maxRetries < 0 ==> ok && client.server == old(client.server)
      ensures ok && retryCfg.maxRetries >= 0 ==> client.server.objects == old(client.server.objects)[key := data]
      ensures old(Healthy()) ==> ok && retryCfg.maxRetries >= 0
    {
      if Healthy() { HasBudget(); }
      ok := Request(PutObject(key, data));
    }

    method CreateMultipart(key: string) returns (ok: bool, id: int)
      requires ServerOk(client.server)
      modifies client
      ensures ServerOk(client.server) && client.server.objects == old(client.server.objects)
      ensures ok ==> Progress(retryCfg, old(client.server), client.server, id, map[])
      ensures !ok ==> NothingLeft(old(client.server), client.server) && retryCfg.maxRetries >= 0
      ensures old(Healthy()) ==> ok && retryCfg.maxRetries >= 0
      ensures old(Healthy()) ==> Healthy()
      ensures old(NoAnswerLost()) ==> NoAnswerLost()
    {
      ghost var before, healthy, sent := client.server, Healthy(), client.sent;
      if healthy { HasBudget(); }
      id := -1;
      var outcome, _, trace := ExecuteWithRetry(client, retryCfg, CreateUpload(key));
      UploadOpened(before, key, trace);
      if healthy {
        var k: nat := SeriesEnds(before, CreateUpload(key), sent, outcome, trace);
      }
      ok := outcome.Success?;
      if ok && outcome.reply.Some? && outcome.reply.value.Opened? {
        id := outcome.reply.value.id;
      }
    }

    /** The last request sent never reached the server. */
    ghost predicate LastLost()
      reads client
    {
      client.sent > 0 && client.faults(client.sent - 1).LoseRequest?
    }

    method Abort(id: int, ghost before: Server)
      requires ServerOk(before) && OthersKept(before, client.server, id) && (id == -1 || before.nextId <= id)
      modifies client
      ensures client.server.objects == old(client.server.objects)
      ensures id !in old(client.server.uploads) ==> client.server == old(client.server)
      ensures LastLost() || NothingLeft(before, client.server)
    {
      ghost var now := client.server;
      var _ := client.Send(AbortUpload(id));
      Closed(before, now, id, Effect(now, AbortUpload(id)).0);
      assert id !in now.uploads ==> now.uploads - {id} == now.uploads;
    }

    /** Reads the next part and uploads it. */
    method SendNext(r: Reader, id: int, num: nat, ghost before: Server, ghost data: bytes)
      returns (ok: bool, sent: bool, more: bool)
      requires ServerOk(before) && num >= 1 && AtPart(r.rest, data, num)
      requires Progress(retryCfg, before, client.server, id, PartsUpTo(data, num - 1))
      modifies client, r
      ensures Stopped(retryCfg, before, client.server, id) && |r.rest| <= |old(r.rest)|
      ensures ok ==> Progress(retryCfg, before, client.server, id, PartsUpTo(data, if sent then num else num - 1))
      ensures ok && more ==> sent && AtPart(r.rest, data, num + 1) && |r.rest| < |old(r.rest)|
      ensures ok && !more ==> PartCount(data) == (if sent then num else num - 1) && r.end != Broken
      ensures (retryCfg.maxRetries < 0 || old(Healthy())) && !ok ==> r.end == Broken
      ensures old(Healthy()) ==> Healthy()
      ensures old(NoAnswerLost()) ==> NoAnswerLost()
    {
      Unmoved(before);
      var chunk, readErr := r.ReadFull(PART_SIZE);
      ReadPart(data, num, chunk);
      ok, sent := true, false;
      if |chunk| > 0 {
        ok := SendPart(id, num, chunk, before, PartsUpTo(data, num - 1));
        if !ok {
          return false, false, false;
        }
        NextPart(data, num - 1);
        sent := true;
      }
      more := !readErr.EOF? && !readErr.UnexpectedEOF?;
      ok := !readErr.Other?;
    }

    method SendPart(id: int, num: nat, chunk: bytes, ghost before: Server, ghost parts: Parts) returns (ok: bool)
      requires ServerOk(before) && Progress(retryCfg, before, client.server, id, parts)
      modifies client
      ensures Stopped(retryCfg, before, client.server, id)
      ensures ok ==> Progress(retryCfg, before, client.server, id, parts[num := chunk])
      ensures retryCfg.maxRetries < 0 || old(Healthy()) ==> ok
      ensures old(Healthy()) ==> Healthy()
      ensures old(NoAnswerLost()) ==> NoAnswerLost()
    {
      Unmoved(before);
      if Healthy() { HasBudget(); }
      if retryCfg.maxRetries >= 0 {
        PartAdded(before, client.server, id, parts, num, chunk);
      }
      ok := Request(UploadPart(id, num, chunk));
    }

    method SendParts(r: Reader, id: int, ghost before: Server) returns (ok: bool, completedParts: seq<int>)
      requires ServerOk(before) && Progress(retryCfg, before, client.server, id, map[])
      modifies client, r
      ensures Stopped(retryCfg, before, client.server, id)
      ensures ok ==> completedParts == Numbers(PartCount(old(r.rest))) && r.end != Broken
      ensures ok ==> Progress(retryCfg, before, client.server, id, PartsUpTo(old(r.rest), PartCount(old(r.rest))))
      ensures retryCfg.maxRetries < 0 || old(Healthy()) ==> ok == (r.end != Broken)
      ensures old(Healthy()) ==> Healthy()
      ensures old(NoAnswerLost()) ==> NoAnswerLost()
    {
      Unmoved(before);
      ghost var data := r.rest;
      var partNum, more := 1, true;
      completedParts := [];
      assert PartsUpTo(data, 0) == map[];
      while more
        invariant 1 <= partNum && completedParts == Numbers(partNum - 1)
        invariant Progress(retryCfg, before, client.server, id, PartsUpTo(data, partNum - 1))
        invariant more ==> AtPart(r.rest, data, partNum)
        invariant !more ==> partNum - 1 == PartCount(data) && r.end != Broken
        invariant (old(Healthy()) ==> Healthy()) && (old(NoAnswerLost()) ==> NoAnswerLost())
        decreases |r.rest|, more
      {
        var sent;
        ok, sent, more := SendNext(r, id, partNum, before, data);
        if !ok {
          return;
        }
        if sent {
          NextPart(data, partNum - 1);
          completedParts := completedParts + [partNum];
          partNum := partNum + 1;
        }
      }
      ok := true;
    }

    /** The multipart upload; whatever goes wrong once the upload is open, it is aborted. */
    method UploadMultipart(key: string, r: Reader) returns (ok: bool)
      requires ServerOk(client.server)
      modifies client, r
      ensures client.server.objects in {old(client.server.objects), old(client.server.objects)[key := old(r.rest)]}
      ensures ok ==> r.end != Broken && NothingLeft(old(client.server), client.server)
      ensures ok && retryCfg.maxRetries >= 0 ==>
                client.server.objects == old(client.server.objects)[key := old(r.rest)]
      ensures retryCfg.maxRetries < 0 ==> ok == (r.end != Broken) && client.server == old(client.server)
      ensures r.end == Broken ==> client.server.objects == old(client.server.objects)
      ensures !ok ==> LastLost() || NothingLeft(old(client.server), client.server)
      ensures old(Healthy() && NoAnswerLost()) ==>
                (ok <==> r.end != Broken && !(old(client.server).strict && old(r.rest) == []))
    {
      ghost var before, data := client.server, r.rest;
      var id;
      ok, id := CreateMultipart(key);
      if !ok {
        return;
      }
      var completedParts;
      ok, completedParts := SendParts(r, id, before);
      if ok {
        ok := Finish(id, key, completedParts, before, data);
      }
      if !ok {
        Abort(id, before);
      }
    }

    method Finish(id: int, key: string, nums: seq<int>, ghost before: Server, ghost data: bytes) returns (ok: bool)
      requires ServerOk(before) && nums == Numbers(PartCount(data))
      requires Progress(retryCfg, before, client.server, id, PartsUpTo(data, PartCount(data)))
      modifies client
      ensures client.server.objects in {before.objects, before.objects[key := data]}
      ensures OthersKept(before, client.server, id) && (id == -1 || before.nextId <= id)
      ensures ok ==> NothingLeft(before, client.server)
      ensures ok && retryCfg.maxRetries >= 0 ==> client.server.objects == before.objects[key := data]
      ensures retryCfg.maxRetries < 0 ==> ok && client.server == before
      ensures old(Healthy() && NoAnswerLost()) ==> (ok <==> !(before.strict && data == []))
    {
      if retryCfg.maxRetries >= 0 {
        Completed(before, client.server, id, key, data);
        Granted(before, client.server, id, key, data);
      }
      if Healthy() && NoAnswerLost() {
        HasBudget();
        AnswersFirst();
      }
      ok := Request(CompleteUpload(id, key, nums));
    }

    /** The driver's write. Whatever requests and answers are lost, and however it ends, the
        object under the key is the old one or the whole new one, and no other object
        changes; on success it is the new one and no upload is left with parts in it. */
    method WriteWithOptions(path: string, r: Reader, size: int) returns (ok: bool)
      requires ServerOk(client.server)
      modifies client, r
      ensures var stored := Stored(size, old(r.rest), r.end);
              && (stored.None? ==> !ok && client.server.objects == old(client.server.objects))
              && (stored.Some? ==>
                    && client.server.objects in
                         {old(client.server.objects), old(client.server.objects)[CleanKey(path) := stored.value]}
                    && (ok && retryCfg.maxRetries >= 0 ==>
                          client.server.objects == old(client.server.objects)[CleanKey(path) := stored.value]))
              && (retryCfg.maxRetries < 0 ==> ok == stored.Some? && client.server == old(client.server))
      ensures NothingLeft(old(client.server), client.server) || (!ok && LastLost())
      ensures old(Healthy()) && 0 <= size <= MULTIPART_THRESHOLD ==> (ok <==> Stored(size, old(r.rest), r.end).Some?)
      ensures old(Healthy() && NoAnswerLost()) ==>
                (ok <==> Stored(size, old(r.rest), r.end).Some?
                         && !(size > MULTIPART_THRESHOLD && old(client.server).strict && old(r.rest) == []))
    {
      Unmoved(client.server);
      ghost var before := client.server;
      var key := CleanKey(path);
      if 0 <= size <= MULTIPART_THRESHOLD {
        SizedRead(size, r.rest, r.end);
        var data, err := r.ReadFull(size);
        if err.NoError? {
          ok := PutSingleObject(key, data);
        } else if err.EOF? {
          ok := PutSingleObject(key, Zeros(size));
        } else {
          ok := false;
        }
        SameUploads(before, client.server);
        return;
      }
      if size > MULTIPART_THRESHOLD {
        ok := UploadMultipart(key, r);
        return;
      }
      ok := WriteUnsized(key, r);
    }

    /** A stream of unknown length: one request if it fits the buffer, parts otherwise. */
    method WriteUnsized(key: string, r: Reader) returns (ok: bool)
      requires ServerOk(client.server)
      modifies client, r
      ensures client.server.objects in {old(client.server.objects), old(client.server.objects)[key := old(r.rest)]}
      ensures r.end == Broken ==> !ok && client.server.objects == old(client.server.objects)
      ensures ok && retryCfg.maxRetries >= 0 ==>
                client.server.objects == old(client.server.objects)[key := old(r.rest)]
      ensures retryCfg.maxRetries < 0 ==> ok == (r.end != Broken) && client.server == old(client.server)
      ensures NothingLeft(old(client.server), client.server) || (!ok && LastLost())
      ensures old(Healthy() && NoAnswerLost()) ==> (ok <==> r.end != Broken)
    {
      Unmoved(client.server);
      ghost var before := client.server;
      var buf, err := r.ReadFull(MULTIPART_THRESHOLD);
      if err.EOF? || err.UnexpectedEOF? {
        ok := PutSingleObject(key, buf);
        SameUploads(before, client.server);
        return;
      }
      if !err.NoError? {
        return false;
      }
      assert buf + r.rest == old(r.rest);
      var combined := new Reader(buf + r.rest, r.end);
      ok := UploadMultipart(key, combined);
    }
  }

  /** With a retry limit of -1 a write to an empty server over a link that loses nothing
      succeeds, and the server is still empty. */
  method NegativeLimitWitness(path: string) returns (ok: bool, objects: map<string, bytes>)
    ensures ok && objects == map[]
  {
    var link := new Link(Server(map[], map[], 0, true), _ => Deliver, _ => false, _ => 0.0);
    var driver := new Driver(link, RetryConfig(-1, 0, 0));
    var r := new Reader([1], Proper);
    ok := driver.WriteWithOptions(path, r, -1);
    objects := link.server.objects;
  }

  /** Completing an upload whose first answer is lost: the object is stored, the request made
      again is refused, and the driver reports failure. */
  method LostAnswerWitness() returns (ok: bool, objects: map<string, bytes>)
    ensures !ok && objects == map["a" := [7]]
  {
    var server := Server(map[], map[0 := map[1 := [7]]], 1, true);
    var link := new Link(server, n => if n == 0 then LoseReply(true) else Deliver, _ => false, _ => 0.0);
    var driver := new Driver(link, RetryConfig(1, 0, 0));
    forall n: nat | link.sent <= n ensures RecoversAt(link.faults, n, 1) {
      assert GetsThrough(link.faults, n, if n == 0 then 1 else 0);
    }
    assert driver.Healthy();
    assert forall k: nat :: !AnsweredAfter(link.faults, 0, k) by {
      forall k: nat ensures !AnsweredAfter(link.faults, 0, k) { assert link.faults(0) == LoseReply(true); }
    }
    ok := driver.Request(CompleteUpload(0, "a", [1]));
    objects := link.server.objects;
    assert [1][..0] == [] && Assemble(server.uploads[0], [1]) == [7];
  }
}
