/** The object server behind the S3 driver, and what an unreliable link can do to a request. */
module ObjectServer {
  import opened Prelude

  type Parts = map<int, bytes>

  /** Stored objects and open multipart uploads. A server that is `strict` puts together the
      parts named in the completing request; otherwise it takes every part it was sent. */
  datatype Server = Server(objects: map<string, bytes>, uploads: map<int, Parts>, nextId: int, strict: bool)

  /** Identifiers were handed out in order; -1 stands for the empty identifier. */
  ghost predicate ServerOk(s: Server) {
    0 <= s.nextId && forall id :: id in s.uploads ==> 0 <= id < s.nextId
  }

  datatype Op =
    | PutObject(key: string, data: bytes)
    | CreateUpload(key: string)
    | UploadPart(id: int, num: int, data: bytes)
    | CompleteUpload(id: int, key: string, nums: seq<int>)
    | AbortUpload(id: int)

  datatype Reply = Done | Opened(id: int) | Refused(transient: bool)

  // ---------------------------------------------------------------- assembling parts

  predicate Ascending(s: seq<int>) {
    forall i, j :: 0 <= i < j < |s| ==> s[i] < s[j]
  }

  lemma SomeMember(s: set<int>)
    ensures s == {} || exists k :: k in s
  {
    if forall k :: k !in s { assert s == {}; }
  }

  ghost predicate Largest(s: set<int>, m: int) {
    m in s && forall k :: k in s ==> k <= m
  }

  lemma LargerOf(s: set<int>, x: int, m: int)
    requires x in s && Largest(s - {x}, m)
    ensures Largest(s, if m < x then x else m)
  {
    forall k | k in s ensures k <= if m < x then x else m {
      if k != x { assert k in s - {x}; }
    }
  }

  lemma {:induction false} LargestExists(s: set<int>)
    requires s != {}
    ensures exists m :: Largest(s, m)
  {
    SomeMember(s);
    var x :| x in s;
    if s - {x} == {} {
      assert forall k :: k in s && k != x ==> k in s - {x};
      assert Largest(s, x);
    } else {
      LargestExists(s - {x});
      var m :| Largest(s - {x}, m);
      LargerOf(s, x, m);
    }
  }

  /** The numbers in ascending order. */
  function SortedNumbers(s: set<int>): (r: seq<int>)
    ensures Ascending(r) && forall k :: k in r <==> k in s
    decreases |s|
  {
    if s == {} then []
    else
      LargestExists(s);
      assert exists m :: m in s && forall k :: k in s ==> k <= m by { var m :| Largest(s, m); assert m in s; }
      var m :| m in s && forall k :: k in s ==> k <= m;
      SortedNumbers(s - {m}) + [m]
  }

  lemma FirstMember(s: seq<int>)
    ensures s == [] || exists k :: k in s
  {
    if s != [] {
      var k := s[0];
      assert k in s;
    }
  }

  lemma AllButLast(s: seq<int>)
    requires Ascending(s) && s != []
    ensures var last := s[|s| - 1];
            s == s[..|s| - 1] + [last] && forall k :: k in s[..|s| - 1] <==> k in s && k != last
  {
    assert s == s[..|s| - 1] + [s[|s| - 1]];
  }

  lemma {:induction false} AscendingUnique(a: seq<int>, b: seq<int>)
    requires Ascending(a) && Ascending(b) && forall k :: k in a <==> k in b
    ensures a == b
    decreases |a|
  {
    var k := |a| - 1;
    if a == [] {
      FirstMember(b);
    } else {
      FirstMember(a);
      var x, y := a[k], b[|b| - 1];
      assert x in a && y in b;
      assert x in b && y in a;
      AllButLast(a);
      AllButLast(b);
      forall n ensures n in a[..k] <==> n in b[..|b| - 1] {
        assert n in a[..k] <==> n in a && n != x;
        assert n in b[..|b| - 1] <==> n in b && n != y;
      }
      AscendingUnique(a[..k], b[..|b| - 1]);
    }
  }

  function Assemble(parts: Parts, nums: seq<int>): bytes
    requires forall n :: n in nums ==> n in parts
  {
    if nums == [] then []
    else
      var last := nums[|nums| - 1];
      assert last in nums;
      Assemble(parts, nums[..|nums| - 1]) + parts[last]
  }

  /** A strict server's conditions on the list of parts. */
  predicate Acceptable(parts: Parts, nums: seq<int>) {
    nums != [] && Ascending(nums) && forall n :: n in nums ==> n in parts
  }

  /** What a request does when it reaches the server, and the answer. */
  function Effect(s: Server, op: Op): (Server, Reply) {
    match op
    case PutObject(key, data) => (s.(objects := s.objects[key := data]), Done)
    case CreateUpload(_) => (s.(uploads := s.uploads[s.nextId := map[]], nextId := s.nextId + 1), Opened(s.nextId))
    case UploadPart(id, num, data) =>
      if id in s.uploads then (s.(uploads := s.uploads[id := s.uploads[id][num := data]]), Done)
      else (s, Refused(false))
    case CompleteUpload(id, key, nums) =>
      if id !in s.uploads || (s.strict && !Acceptable(s.uploads[id], nums)) then (s, Refused(false))
      else
        var used := if s.strict then nums else SortedNumbers(s.uploads[id].Keys);
        (s.(objects := s.objects[key := Assemble(s.uploads[id], used)], uploads := s.uploads - {id}), Done)
    case AbortUpload(id) => (s.(uploads := s.uploads - {id}), Done)
  }

  // ---------------------------------------------------------------- the link

  /** What may befall one request: it is answered; it never arrives; or it takes effect but
      the answer is lost. The caller may or may not recognise the error as transient. */
  datatype Fault = Deliver | LoseRequest(transient: bool) | LoseReply(transient: bool)

  function Moved(s: Server, op: Op, f: Fault): Server {
    if f.LoseRequest? then s else Effect(s, op).0
  }

  function Answer(s: Server, op: Op, f: Fault): Reply {
    match f
    case Deliver => Effect(s, op).1
    case LoseRequest(t) => Refused(t)
    case LoseReply(t) => Refused(t)
  }

  /** The server after a series of attempts at one request. */
  ghost function Tried(s: Server, op: Op, trace: seq<Fault>): Server
    decreases |trace|
  {
    if trace == [] then s else Moved(Tried(s, op, trace[..|trace| - 1]), op, trace[|trace| - 1])
  }

  /** The answer to the i-th attempt. */
  ghost function AnswerAt(s: Server, op: Op, trace: seq<Fault>, i: nat): Reply
    requires i < |trace|
  {
    Answer(Tried(s, op, trace[..i]), op, trace[i])
  }

  lemma TriedSnoc(s: Server, op: Op, trace: seq<Fault>, f: Fault)
    ensures Tried(s, op, trace + [f]) == Moved(Tried(s, op, trace), op, f)
    ensures AnswerAt(s, op, trace + [f], |trace|) == Answer(Tried(s, op, trace), op, f)
    ensures forall i :: 0 <= i < |trace| ==> AnswerAt(s, op, trace + [f], i) == AnswerAt(s, op, trace, i)
  {
    assert (trace + [f])[..|trace|] == trace;
    forall i | 0 <= i < |trace| ensures AnswerAt(s, op, trace + [f], i) == AnswerAt(s, op, trace, i) {
      assert (trace + [f])[..i] == trace[..i];
    }
  }

  predicate Arrived(trace: seq<Fault>) {
    exists i :: 0 <= i < |trace| && !trace[i].LoseRequest?
  }

  lemma ArrivedByLast(trace: seq<Fault>)
    requires trace != []
    ensures Arrived(trace) <==> Arrived(trace[..|trace| - 1]) || !trace[|trace| - 1].LoseRequest?
  {
    var front := trace[..|trace| - 1];
    if Arrived(front) {
      var i :| 0 <= i < |front| && !front[i].LoseRequest?;
      assert !trace[i].LoseRequest?;
    }
    if Arrived(trace) {
      var i :| 0 <= i < |trace| && !trace[i].LoseRequest?;
      assert i < |front| ==> !front[i].LoseRequest?;
    }
  }

  /** A repeated request changes nothing more. */
  lemma Repeated(s: Server, op: Op)
    requires !op.CreateUpload?
    ensures Effect(Effect(s, op).0, op).0 == Effect(s, op).0
  {
    var t := Effect(s, op).0;
    match op
    case PutObject(key, data) => assert t.objects[key := data] == t.objects;
    case UploadPart(id, num, data) =>
      if id in s.uploads {
        assert t.uploads[id][num := data] == t.uploads[id];
        assert t.uploads[id := t.uploads[id]] == t.uploads;
      }
    case AbortUpload(id) => assert t.uploads - {id} == t.uploads;
    case CompleteUpload(_, _, _) =>
    case CreateUpload(_) =>
  }

  /** Retrying is safe: however often a request is retried, and whether requests or answers
      are lost, the server ends up as after one delivery or none. Opening an upload is the
      one exception. */
  lemma {:induction false} AtMostOnce(s: Server, op: Op, trace: seq<Fault>)
    requires !op.CreateUpload?
    ensures Tried(s, op, trace) == if Arrived(trace) then Effect(s, op).0 else s
    decreases |trace|
  {
    if trace != [] {
      var k := |trace| - 1;
      var front := trace[..k];
      AtMostOnce(s, op, front);
      Repeated(s, op);
      ArrivedByLast(trace);
    }
  }

  /** An answered request took effect exactly once, and its answer is that of the delivery
      that did it. */
  lemma AnsweredOnce(s: Server, op: Op, trace: seq<Fault>)
    requires !op.CreateUpload? && trace != [] && !AnswerAt(s, op, trace, |trace| - 1).Refused?
    ensures Tried(s, op, trace) == Effect(s, op).0 && !Effect(s, op).1.Refused?
  {
    AtMostOnce(s, op, trace[..|trace| - 1]);
    Repeated(s, op);
  }

  /** Opening an upload again leaves behind one empty upload for every lost answer, and
      nothing else: no object and no earlier upload is touched. */
  lemma {:induction false} OnlyEmptyUploads(s: Server, key: string, trace: seq<Fault>)
    requires ServerOk(s)
    ensures var t := Tried(s, CreateUpload(key), trace);
            && ServerOk(t) && t.objects == s.objects && t.strict == s.strict && s.nextId <= t.nextId
            && (forall id :: id in t.uploads <==> id in s.uploads || s.nextId <= id < t.nextId)
            && (forall id :: id in s.uploads ==> t.uploads[id] == s.uploads[id])
            && (forall id :: s.nextId <= id < t.nextId ==> t.uploads[id] == map[])
    decreases |trace|
  {
    if trace != [] { OnlyEmptyUploads(s, key, trace[..|trace| - 1]); }
  }
}
