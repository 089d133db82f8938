/**
 * The OmniSharp request queues of the C# extension 1.16.2 (`requestQueue.js`):
 * each `RequestQueue` holds the requests not yet sent (`pending`, first in
 * first out) and those sent and waiting for the server's answer (`waiting`,
 * keyed by the id `makeRequest` returns). A `RequestQueueCollection` routes
 * each command to the priority, normal or deferred queue and `drain`s them.
 *
 * `makeRequest` (which sends a request and returns its sequence number) and the
 * command classification of `prioritization.js` are parameters; the event
 * stream and the start times are not modelled.
 */
module RequestQueue {
  import opened Wrappers
  import opened JsString

  /** A request object; `token` stands for its identity, which `indexOf` compares. */
  datatype Request = Request(command: String, token: nat)

  /** A queue's `_pending` list and `_waiting` map. */
  datatype QueueState = QueueState(pending: seq<Request>, waiting: map<int, Request>)

  /** `Array.prototype.indexOf`: the first position holding `x`, or -1. */
  function FirstIndex<T(==)>(s: seq<T>, x: T): (i: int)
    ensures -1 <= i < |s|
    ensures i == -1 <==> x !in s
    ensures 0 <= i ==> s[i] == x && forall k :: 0 <= k < i ==> s[k] != x
  {
    if s == [] then -1
    else if s[0] == x then 0
    else
      var j := FirstIndex(s[1..], x);
      if j == -1 then -1 else j + 1
  }

  /** `splice(i, 1)` takes out exactly the element at `i`. */
  lemma SpliceOut<T>(s: seq<T>, i: int)
    requires 0 <= i < |s|
    ensures multiset(s[..i] + s[i + 1..]) == multiset(s) - multiset{s[i]}
  {
    assert s == s[..i] + [s[i]] + s[i + 1..];
  }

  /** The waiting map after storing each request under its id, first to last. */
  function Store(waiting: map<int, Request>, rs: seq<Request>, makeRequest: Request -> int): map<int, Request>
    decreases |rs|
  {
    if rs == [] then waiting else Store(waiting[makeRequest(rs[0]) := rs[0]], rs[1..], makeRequest)
  }

  /**
   * The loop of `processPending` with `budget` slots left: send the front
   * request, and stop once the queue is full, the budget is spent or nothing
   * is pending.
   */
  function Run(pending: seq<Request>, waiting: map<int, Request>, maxSize: int, makeRequest: Request -> int, budget: int): QueueState
    decreases |pending|
  {
    if budget <= 0 || pending == [] then QueueState(pending, waiting)
    else
      var w := waiting[makeRequest(pending[0]) := pending[0]];
      if |w| >= maxSize then QueueState(pending[1..], w)
      else Run(pending[1..], w, maxSize, makeRequest, budget - 1)
  }

  /** One request sent by `Run`. */
  lemma RunStep(pending: seq<Request>, waiting: map<int, Request>, maxSize: int, makeRequest: Request -> int, budget: int)
    requires budget > 0 && pending != []
    ensures var w := waiting[makeRequest(pending[0]) := pending[0]];
      Run(pending, waiting, maxSize, makeRequest, budget) ==
        if |w| >= maxSize then QueueState(pending[1..], w)
        else Run(pending[1..], w, maxSize, makeRequest, budget - 1)
  { }

  /** `processPending`: the free slots are `maxSize` less the waiting requests. */
  function Process(st: QueueState, maxSize: int, makeRequest: Request -> int): QueueState {
    if st.pending == [] then st
    else Run(st.pending, st.waiting, maxSize, makeRequest, maxSize - |st.waiting|)
  }

  /** The requests `processPending` may send at most: `maxSize` less the waiting ones, if positive. */
  function FreeSlots(st: QueueState, maxSize: int): nat {
    if maxSize - |st.waiting| <= 0 then 0 else maxSize - |st.waiting|
  }

  /** Storing one request more adds at most one entry. */
  lemma {:induction false} StoreSize(waiting: map<int, Request>, rs: seq<Request>, makeRequest: Request -> int)
    ensures |waiting| <= |Store(waiting, rs, makeRequest)| <= |waiting| + |rs|
    ensures forall id :: id in waiting ==> id in Store(waiting, rs, makeRequest)
    decreases |rs|
  {
    if rs != [] {
      var w := waiting[makeRequest(rs[0]) := rs[0]];
      assert w.Keys == waiting.Keys + {makeRequest(rs[0])};
      StoreSize(w, rs[1..], makeRequest);
    }
  }

  /** The last request stored is found under its own id. */
  lemma {:induction false} StoreLast(waiting: map<int, Request>, rs: seq<Request>, makeRequest: Request -> int)
    requires rs != []
    ensures makeRequest(rs[|rs| - 1]) in Store(waiting, rs, makeRequest)
    ensures Store(waiting, rs, makeRequest)[makeRequest(rs[|rs| - 1])] == rs[|rs| - 1]
    decreases |rs|
  {
    if |rs| > 1 {
      StoreLast(waiting[makeRequest(rs[0]) := rs[0]], rs[1..], makeRequest);
    }
  }

  /** `Store` over a front element and the rest. */
  lemma StoreFront(waiting: map<int, Request>, pending: seq<Request>, k: int, makeRequest: Request -> int)
    requires 0 < k <= |pending|
    ensures Store(waiting, pending[..k], makeRequest)
         == Store(waiting[makeRequest(pending[0]) := pending[0]], pending[1..][..k - 1], makeRequest)
  {
    assert pending[..k][1..] == pending[1..][..k - 1];
  }

  /** How many requests the loop of `processPending` sends with `budget` slots left. */
  function Moved(pending: seq<Request>, waiting: map<int, Request>, maxSize: int, makeRequest: Request -> int, budget: int): (k: nat)
    ensures k <= |pending|
    ensures budget <= 0 ==> k == 0
    ensures budget > 0 ==> k <= budget
    decreases |pending|
  {
    if budget <= 0 || pending == [] then 0
    else if |waiting[makeRequest(pending[0]) := pending[0]]| >= maxSize then 1
    else 1 + Moved(pending[1..], waiting[makeRequest(pending[0]) := pending[0]], maxSize, makeRequest, budget - 1)
  }

  /** The loop sends the first `Moved` pending requests, in order, and stores each under its id. */
  lemma {:induction false} RunMoves(pending: seq<Request>, waiting: map<int, Request>, maxSize: int, makeRequest: Request -> int, budget: int)
    ensures var k := Moved(pending, waiting, maxSize, makeRequest, budget);
      Run(pending, waiting, maxSize, makeRequest, budget) == QueueState(pending[k..], Store(waiting, pending[..k], makeRequest))
    decreases |pending|
  {
    var k := Moved(pending, waiting, maxSize, makeRequest, budget);
    if budget <= 0 || pending == [] {
      assert pending[..0] == [] && pending[0..] == pending;
    } else {
      var w := waiting[makeRequest(pending[0]) := pending[0]];
      StoreFront(waiting, pending, k, makeRequest);
      if |w| < maxSize {
        RunMoves(pending[1..], w, maxSize, makeRequest, budget - 1);
        assert pending[1..][k - 1..] == pending[k..];
      } else {
        assert pending[1..][..0] == [];
      }
    }
  }

  /** The loop stops only when nothing is left, the budget is spent or the map has reached `maxSize`. */
  lemma {:induction false} RunStops(pending: seq<Request>, waiting: map<int, Request>, maxSize: int, makeRequest: Request -> int, budget: int)
    ensures var k := Moved(pending, waiting, maxSize, makeRequest, budget);
      k == |pending| || k >= budget || (k > 0 && |Store(waiting, pending[..k], makeRequest)| >= maxSize)
    decreases |pending|
  {
    var k := Moved(pending, waiting, maxSize, makeRequest, budget);
    if budget > 0 && pending != [] {
      var w := waiting[makeRequest(pending[0]) := pending[0]];
      StoreFront(waiting, pending, k, makeRequest);
      if |w| < maxSize {
        RunStops(pending[1..], w, maxSize, makeRequest, budget - 1);
      } else {
        assert pending[1..][..0] == [];
      }
    }
  }

  /** The loop does not stop early: before the last request it sends, the map is below `maxSize`. */
  lemma {:induction false} RunNotFullBefore(pending: seq<Request>, waiting: map<int, Request>, maxSize: int, makeRequest: Request -> int, budget: int, j: int)
    requires 0 < j < Moved(pending, waiting, maxSize, makeRequest, budget)
    ensures |Store(waiting, pending[..j], makeRequest)| < maxSize
    decreases |pending|
  {
    var w := waiting[makeRequest(pending[0]) := pending[0]];
    StoreFront(waiting, pending, j, makeRequest);
    if j == 1 {
      assert pending[1..][..0] == [];
    } else {
      RunNotFullBefore(pending[1..], w, maxSize, makeRequest, budget - 1, j - 1);
    }
  }

  /**
   * `processPending` sends requests from the front of `pending`, in order, and
   * stores each in `waiting`; it sends at most the free slots.
   */
  lemma ProcessMoves(st: QueueState, maxSize: int, makeRequest: Request -> int)
    ensures var r := Process(st, maxSize, makeRequest);
      exists k :: 0 <= k <= |st.pending| && k <= FreeSlots(st, maxSize)
        && r.pending == st.pending[k..] && r.waiting == Store(st.waiting, st.pending[..k], makeRequest)
  {
    if st.pending == [] {
      assert st.pending[..0] == [] && st.pending[0..] == st.pending;
    } else {
      RunMoves(st.pending, st.waiting, maxSize, makeRequest, maxSize - |st.waiting|);
    }
  }

  /** A queue within its capacity stays within it. */
  lemma CapacityKept(st: QueueState, maxSize: int, makeRequest: Request -> int)
    requires |st.waiting| <= maxSize
    ensures |Process(st, maxSize, makeRequest).waiting| <= maxSize
  {
    ProcessMoves(st, maxSize, makeRequest);
    var r := Process(st, maxSize, makeRequest);
    var k :| 0 <= k <= |st.pending| && k <= FreeSlots(st, maxSize)
      && r.pending == st.pending[k..] && r.waiting == Store(st.waiting, st.pending[..k], makeRequest);
    StoreSize(st.waiting, st.pending[..k], makeRequest);
  }

  /** Every request sent is found in `waiting` or was overwritten by a later one with the same id; the most recent one always is. */
  lemma ProcessStoresLast(st: QueueState, maxSize: int, makeRequest: Request -> int)
    ensures var r := Process(st, maxSize, makeRequest);
      |r.pending| < |st.pending| ==>
        var last := st.pending[|st.pending| - |r.pending| - 1];
        makeRequest(last) in r.waiting && r.waiting[makeRequest(last)] == last
  {
    ProcessMoves(st, maxSize, makeRequest);
    var r := Process(st, maxSize, makeRequest);
    var k :| 0 <= k <= |st.pending| && k <= FreeSlots(st, maxSize)
      && r.pending == st.pending[k..] && r.waiting == Store(st.waiting, st.pending[..k], makeRequest);
    if k > 0 {
      StoreLast(st.waiting, st.pending[..k], makeRequest);
    }
  }

  class RequestQueue {
    const name: String
    const maxSize: int
    const makeRequest: Request -> int
    var pending: seq<Request>
    var waiting: map<int, Request>

    constructor (name: String, maxSize: int, makeRequest: Request -> int)
      ensures this.name == name && this.maxSize == maxSize && this.makeRequest == makeRequest
      ensures pending == [] && waiting == map[]
    {
      this.name := name;
      this.maxSize := maxSize;
      this.makeRequest := makeRequest;
      pending := [];
      waiting := map[];
    }

    function State(): QueueState
      reads this
    {
      QueueState(pending, waiting)
    }

    /** `enqueue`: the request goes to the back of `pending`. */
    method Enqueue(request: Request)
      modifies this
      ensures pending == old(pending) + [request] && waiting == old(waiting)
    {
      pending := pending + [request];
    }

    /** `dequeue`: the waiting request with that id, which is then forgotten. */
    method Dequeue(id: int) returns (r: Option<Request>)
      modifies this
      ensures id in old(waiting) ==> r == Some(old(waiting)[id]) && waiting == old(waiting) - {id}
      ensures id !in old(waiting) ==> r == None && waiting == old(waiting)
      ensures pending == old(pending)
    {
      if id in waiting {
        r := Some(waiting[id]);
        waiting := waiting - {id};
      } else {
        r := None;
      }
    }

    /**
     * `cancelRequest`: a pending request is taken out and its `onError` called
     * with the returned message; a request already sent is left alone.
     */
    method CancelRequest(request: Request) returns (rejection: Option<String>)
      modifies this
      ensures request in old(pending) ==>
        var i := FirstIndex(old(pending), request);
        pending == old(pending)[..i] + old(pending)[i + 1..]
        && multiset(pending) == multiset(old(pending)) - multiset{request}
        && rejection == Some("Pending request cancelled: " + request.command)
      ensures request !in old(pending) ==> pending == old(pending) && rejection == None
      ensures waiting == old(waiting)
    {
      var index := FirstIndex(pending, request);
      if index != -1 {
        SpliceOut(pending, index);
        pending := pending[..index] + pending[index + 1..];
        rejection := Some("Pending request cancelled: " + request.command);
      } else {
        rejection := None;
      }
    }

    function HasPending(): (b: bool)
      reads this
      ensures b <==> pending != []
    {
      |pending| > 0
    }

    function IsFull(): (b: bool)
      reads this
      ensures b <==> |waiting| >= maxSize
    {
      |waiting| >= maxSize
    }

    /** `processPending`, proved against `Process`. */
    method ProcessPending()
      modifies this
      ensures State() == Process(old(State()), maxSize, makeRequest)
    {
      if |pending| == 0 {
        return;
      }
      var slots := maxSize - |waiting|;
      var i := 0;
      while i < slots && |pending| > 0
        invariant Run(pending, waiting, maxSize, makeRequest, slots - i) == Process(old(State()), maxSize, makeRequest)
        decreases |pending|
      {
        RunStep(pending, waiting, maxSize, makeRequest, slots - i);
        var item := pending[0];
        pending := pending[1..];
        var id := makeRequest(item);
        waiting := waiting[id := item];
        if |waiting| >= maxSize {
          break;
        }
        i := i + 1;
      }
    }
  }

  // ---------------------------------------------------------------------------
  // `RequestQueueCollection`.

  datatype QueueKind = Priority | Normal | Deferred

  /** `getQueue`'s choice: priority commands first, then normal ones, and every other command is deferred. */
  function Route(command: String, isPriorityCommand: String -> bool, isNormalCommand: String -> bool): (k: QueueKind)
    ensures k == Priority <==> isPriorityCommand(command)
    ensures k == Normal <==> !isPriorityCommand(command) && isNormalCommand(command)
  {
    if isPriorityCommand(command) then Priority
    else if isNormalCommand(command) then Normal
    else Deferred
  }

  /** The deferred queue's size: a quarter of the concurrency, rounded down, and at least 2. */
  function DeferredCapacity(concurrency: int): (c: int)
    ensures c >= 2
    ensures concurrency < 12 ==> c == 2
    ensures concurrency >= 12 ==> 4 * c <= concurrency < 4 * c + 4
  {
    var quarter := concurrency / 4;
    if quarter > 2 then quarter else 2
  }

  /** The three queues' states. */
  datatype Queues = Queues(priority: QueueState, normal: QueueState, deferred: QueueState)

  /** The queues' capacities. */
  datatype Capacities = Capacities(priority: int, normal: int, deferred: int)

  predicate Full(st: QueueState, maxSize: int) {
    |st.waiting| >= maxSize
  }

  /**
   * `drain`: nothing while already draining, while the priority request is
   * outstanding or while both other queues are full; pending priority work is
   * sent alone; otherwise the normal queue, then the deferred one.
   */
  function Drained(qs: Queues, processing: bool, caps: Capacities, makeRequest: Request -> int): Queues {
    if processing || Full(qs.priority, caps.priority) || (Full(qs.normal, caps.normal) && Full(qs.deferred, caps.deferred)) then qs
    else if qs.priority.pending != [] then qs.(priority := Process(qs.priority, caps.priority, makeRequest))
    else
      var normal := if qs.normal.pending != [] then Process(qs.normal, caps.normal, makeRequest) else qs.normal;
      var deferred := if qs.deferred.pending != [] then Process(qs.deferred, caps.deferred, makeRequest) else qs.deferred;
      Queues(qs.priority, normal, deferred)
  }

  /** The queues after `enqueue` put a request at the back of its queue. */
  function Enqueued(qs: Queues, kind: QueueKind, request: Request): (r: Queues)
    ensures kind == Priority ==> r.priority.pending == qs.priority.pending + [request]
    ensures kind == Normal ==> r.normal.pending == qs.normal.pending + [request]
    ensures kind == Deferred ==> r.deferred.pending == qs.deferred.pending + [request]
    ensures kind != Priority ==> r.priority == qs.priority
    ensures kind != Normal ==> r.normal == qs.normal
    ensures kind != Deferred ==> r.deferred == qs.deferred
    ensures r.priority.waiting == qs.priority.waiting && r.normal.waiting == qs.normal.waiting
      && r.deferred.waiting == qs.deferred.waiting
  {
    match kind
    case Priority => qs.(priority := qs.priority.(pending := qs.priority.pending + [request]))
    case Normal => qs.(normal := qs.normal.(pending := qs.normal.pending + [request]))
    case Deferred => qs.(deferred := qs.deferred.(pending := qs.deferred.pending + [request]))
  }

  /** Pending priority work holds back the other queues. */
  lemma DrainPriorityFirst(qs: Queues, processing: bool, caps: Capacities, makeRequest: Request -> int)
    requires qs.priority.pending != []
    ensures var r := Drained(qs, processing, caps, makeRequest);
      r.normal == qs.normal && r.deferred == qs.deferred
  {
  }

  /** Nothing is sent while the priority request is outstanding, while draining, or while both other queues are full. */
  lemma DrainBlocked(qs: Queues, processing: bool, caps: Capacities, makeRequest: Request -> int)
    requires processing || |qs.priority.waiting| >= caps.priority
      || (|qs.normal.waiting| >= caps.normal && |qs.deferred.waiting| >= caps.deferred)
    ensures Drained(qs, processing, caps, makeRequest) == qs
  {
  }

  /** Queues within their capacities stay within them. */
  lemma DrainKeepsCapacity(qs: Queues, processing: bool, caps: Capacities, makeRequest: Request -> int)
    requires |qs.priority.waiting| <= caps.priority && |qs.normal.waiting| <= caps.normal
      && |qs.deferred.waiting| <= caps.deferred
    ensures var r := Drained(qs, processing, caps, makeRequest);
      |r.priority.waiting| <= caps.priority && |r.normal.waiting| <= caps.normal
      && |r.deferred.waiting| <= caps.deferred
  {
    CapacityKept(qs.priority, caps.priority, makeRequest);
    CapacityKept(qs.normal, caps.normal, makeRequest);
    CapacityKept(qs.deferred, caps.deferred, makeRequest);
  }

  /** Draining only sends requests from the front of each queue's pending list. */
  lemma DrainTakesFromFront(qs: Queues, processing: bool, caps: Capacities, makeRequest: Request -> int)
    ensures var r := Drained(qs, processing, caps, makeRequest);
      (exists k :: 0 <= k <= |qs.priority.pending| && r.priority.pending == qs.priority.pending[k..])
      && (exists k :: 0 <= k <= |qs.normal.pending| && r.normal.pending == qs.normal.pending[k..])
      && (exists k :: 0 <= k <= |qs.deferred.pending| && r.deferred.pending == qs.deferred.pending[k..])
  {
    var r := Drained(qs, processing, caps, makeRequest);
    ProcessMoves(qs.priority, caps.priority, makeRequest);
    ProcessMoves(qs.normal, caps.normal, makeRequest);
    ProcessMoves(qs.deferred, caps.deferred, makeRequest);
    assert qs.priority.pending[0..] == qs.priority.pending;
    assert qs.normal.pending[0..] == qs.normal.pending;
    assert qs.deferred.pending[0..] == qs.deferred.pending;
  }

  class RequestQueueCollection {
    const priority: RequestQueue
    const normal: RequestQueue
    const deferred: RequestQueue
    const makeRequest: Request -> int
    const isPriorityCommand: String -> bool
    const isNormalCommand: String -> bool
    var isProcessing: bool

    /** Three distinct queues sharing the collection's `makeRequest`. */
    ghost predicate Valid() {
      priority != normal && priority != deferred && normal != deferred
      && priority.makeRequest == makeRequest && normal.makeRequest == makeRequest
      && deferred.makeRequest == makeRequest
    }

    /** Capacities 1, `concurrency` and `DeferredCapacity(concurrency)`. */
    constructor (concurrency: int, makeRequest: Request -> int, isPriorityCommand: String -> bool, isNormalCommand: String -> bool)
      ensures Valid()
      ensures priority.maxSize == 1 && normal.maxSize == concurrency && deferred.maxSize == DeferredCapacity(concurrency)
      ensures priority.State() == QueueState([], map[]) && normal.State() == QueueState([], map[])
        && deferred.State() == QueueState([], map[])
      ensures this.makeRequest == makeRequest && this.isPriorityCommand == isPriorityCommand
        && this.isNormalCommand == isNormalCommand && !isProcessing
      ensures fresh(priority) && fresh(normal) && fresh(deferred)
    {
      priority := new RequestQueue("Priority", 1, makeRequest);
      normal := new RequestQueue("Normal", concurrency, makeRequest);
      deferred := new RequestQueue("Deferred", DeferredCapacity(concurrency), makeRequest);
      this.makeRequest := makeRequest;
      this.isPriorityCommand := isPriorityCommand;
      this.isNormalCommand := isNormalCommand;
      isProcessing := false;
    }

    function Capacity(): Capacities {
      Capacities(priority.maxSize, normal.maxSize, deferred.maxSize)
    }

    function State(): Queues
      reads priority, normal, deferred
    {
      Queues(priority.State(), normal.State(), deferred.State())
    }

    /** `getQueue`: the queue `Route` picks for the command. */
    function GetQueue(command: String): (q: RequestQueue)
      ensures Route(command, isPriorityCommand, isNormalCommand) == Priority ==> q == priority
      ensures Route(command, isPriorityCommand, isNormalCommand) == Normal ==> q == normal
      ensures Route(command, isPriorityCommand, isNormalCommand) == Deferred ==> q == deferred
    {
      if isPriorityCommand(command) then priority
      else if isNormalCommand(command) then normal
      else deferred
    }

    /** `isEmpty`: no queue has pending work (requests still waiting do not count). */
    function IsEmpty(): (b: bool)
      reads priority, normal, deferred
      ensures b <==> priority.pending == [] && normal.pending == [] && deferred.pending == []
    {
      !deferred.HasPending() && !normal.HasPending() && !priority.HasPending()
    }

    /** `drain`, proved against `Drained`. */
    method Drain()
      requires Valid()
      modifies this, priority, normal, deferred
      ensures State() == Drained(old(State()), old(isProcessing), Capacity(), makeRequest)
      ensures isProcessing == old(isProcessing)
    {
      if isProcessing {
        return;
      }
      if priority.IsFull() {
        return;
      }
      if normal.IsFull() && deferred.IsFull() {
        return;
      }
      isProcessing := true;
      if priority.HasPending() {
        priority.ProcessPending();
        isProcessing := false;
        return;
      }
      if normal.HasPending() {
        normal.ProcessPending();
      }
      if deferred.HasPending() {
        deferred.ProcessPending();
      }
      isProcessing := false;
    }

    /** `enqueue`: the request joins its command's queue, then the queues are drained. */
    method Enqueue(request: Request)
      requires Valid()
      modifies this, priority, normal, deferred
      ensures State() == Drained(Enqueued(old(State()), Route(request.command, isPriorityCommand, isNormalCommand), request),
                                 old(isProcessing), Capacity(), makeRequest)
      ensures isProcessing == old(isProcessing)
    {
      var queue := GetQueue(request.command);
      queue.Enqueue(request);
      Drain();
    }

    /** `dequeue`: the answered request, looked up in its command's queue. */
    method Dequeue(command: String, id: int) returns (r: Option<Request>)
      requires Valid()
      modifies priority, normal, deferred
      ensures var q := GetQueue(command);
        (id in old(q.waiting) ==> r == Some(old(q.waiting)[id]) && q.waiting == old(q.waiting) - {id})
        && (id !in old(q.waiting) ==> r == None && q.waiting == old(q.waiting))
        && q.pending == old(q.pending)
      ensures forall q :: q in {priority, normal, deferred} && q != GetQueue(command) ==> q.State() == old(q.State())
    {
      var queue := GetQueue(command);
      r := queue.Dequeue(id);
    }

    /** `cancelRequest`, on the request's own queue. */
    method CancelRequest(request: Request) returns (rejection: Option<String>)
      requires Valid()
      modifies priority, normal, deferred
      ensures var q := GetQueue(request.command);
        (request in old(q.pending) ==>
          var i := FirstIndex(old(q.pending), request);
          q.pending == old(q.pending)[..i] + old(q.pending)[i + 1..]
          && multiset(q.pending) == multiset(old(q.pending)) - multiset{request}
          && rejection == Some("Pending request cancelled: " + request.command))
        && (request !in old(q.pending) ==> q.pending == old(q.pending) && rejection == None)
        && q.waiting == old(q.waiting)
      ensures forall q :: q in {priority, normal, deferred} && q != GetQueue(request.command) ==> q.State() == old(q.State())
    {
      var queue := GetQueue(request.command);
      rejection := queue.CancelRequest(request);
    }
  }
}
