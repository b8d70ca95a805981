/** The request/response protocol between drive.js and terrain-worker.js, as
    explicit events instead of Promises.

    Worker side: `ensureCog` starts the raster load at most once and every message
    that arrives while it is pending waits for it; each `init` and `sampleGrid`
    message gets exactly one reply carrying its tag, in no guaranteed order.
    Main side: `sampleHeightGridWorker` registers a numbered pending entry; a reply
    resolves the matching entry once and unknown ids are ignored. */
module Worker {
  import opened Common
  import opened Sampler

  /** Messages posted to the worker. */
  datatype Request =
    | Init(url: Option<string>)
    | SampleGridReq(id: int, bounds: GeoBounds, segments: nat)
    | OtherRequest

  /** Messages posted back by the worker. */
  datatype Reply =
    | Ready(width: int, height: int)
    | ReadyError
    | SampleGridResult(id: int, heights: Option<seq<real>>)
    | SampleGridError(id: int)

  /** What a request asks to be answered, and what a reply answers. */
  datatype Tag = InitTag | GridTag(id: int)

  function RequestTag(m: Request): seq<Tag>
  {
    match m
    case Init(_) => [InitTag]
    case SampleGridReq(id, _, _) => [GridTag(id)]
    case OtherRequest => []
  }

  function ReplyTag(r: Reply): Tag
  {
    match r
    case Ready(_, _) => InitTag
    case ReadyError => InitTag
    case SampleGridResult(id, _) => GridTag(id)
    case SampleGridError(id) => GridTag(id)
  }

  /** The tags of a sequence of requests, in order; unknown types ask nothing. */
  function RequestTags(ms: seq<Request>): seq<Tag>
  {
    if ms == [] then [] else RequestTags(ms[..|ms| - 1]) + RequestTag(ms[|ms| - 1])
  }

  /** The tags of a sequence of replies, in order. */
  function ReplyTags(rs: seq<Reply>): seq<Tag>
  {
    if rs == [] then [] else ReplyTags(rs[..|rs| - 1]) + [ReplyTag(rs[|rs| - 1])]
  }

  lemma {:induction false} RequestTagsAppend(a: seq<Request>, b: seq<Request>)
    ensures RequestTags(a + b) == RequestTags(a) + RequestTags(b)
    decreases |b|
  {
    if b == [] {
      assert a + b == a;
    } else {
      var b' := b[..|b| - 1];
      assert (a + b)[..|a + b| - 1] == a + b';
      assert (a + b)[|a + b| - 1] == b[|b| - 1];
      RequestTagsAppend(a, b');
    }
  }

  lemma {:induction false} ReplyTagsAppend(a: seq<Reply>, b: seq<Reply>)
    ensures ReplyTags(a + b) == ReplyTags(a) + ReplyTags(b)
    decreases |b|
  {
    if b == [] {
      assert a + b == a;
    } else {
      var b' := b[..|b| - 1];
      assert (a + b)[..|a + b| - 1] == a + b';
      assert (a + b)[|a + b| - 1] == b[|b| - 1];
      ReplyTagsAppend(a, b');
    }
  }

  /** The state of the worker's `cogLoading` memo and `cogImage`. */
  datatype Load = Idle | Loading | Loaded(cog: Cog) | Failed

  /** Worker state. `received` is the log of every message in arrival order;
      `waiting` holds the handlers suspended on the pending load; `inFlight` holds
      the handlers past `ensureCog` whose reply is decided but not yet posted (they
      still await `readRasters`, or the resumption after `ensureCog`); `outbox` is
      every reply posted so far, in posting order. */
  datatype WorkerState = WorkerState(
    url: string,
    load: Load,
    loadsStarted: nat,
    received: seq<Request>,
    waiting: seq<Request>,
    inFlight: seq<Reply>,
    outbox: seq<Reply>)

  const DefaultCogUrl: string := "/terrain/cog"

  const WorkerInit: WorkerState := WorkerState(DefaultCogUrl, Idle, 0, [], [], [], [])

  /** The reply to one message once `ensureCog` has settled. */
  function Answer(m: Request, load: Load): (r: Reply)
    requires !m.OtherRequest? && WellFormed(m) && (load.Loaded? || load.Failed?)
    ensures [ReplyTag(r)] == RequestTag(m)
    ensures m.Init? ==> (r.Ready? <==> load.Loaded?)
    ensures m.SampleGridReq? && load.Failed? ==> r == SampleGridError(m.id)
    ensures m.SampleGridReq? && r.SampleGridResult? && r.heights.Some? ==>
              load.Loaded? && |r.heights.value| == (m.segments + 1) * (m.segments + 1)
  {
    match m
    case Init(_) =>
      if load.Loaded? then Ready(load.cog.width, load.cog.height) else ReadyError
    case SampleGridReq(id, b, segments) =>
      if load.Failed? then SampleGridError(id)
      else match SampleHeightGridWorker(Some(load.cog), b, segments)
        case Heights(h) => SampleGridResult(id, Some(h))
        case NoImage => SampleGridResult(id, None)
        case ReadFailed => SampleGridError(id)
  }

  /** The replies the waiting handlers decide when the load settles: one per
      message, carrying that message's tag. */
  function AnswerAll(ms: seq<Request>, load: Load): (rs: seq<Reply>)
    requires load.Loaded? || load.Failed?
    requires forall i :: 0 <= i < |ms| ==> !ms[i].OtherRequest? && WellFormed(ms[i])
    ensures ReplyTags(rs) == RequestTags(ms)
  {
    if ms == [] then []
    else
      var rest := AnswerAll(ms[..|ms| - 1], load);
      var last := Answer(ms[|ms| - 1], load);
      ReplyTagsAppend(rest, [last]);
      RequestTagsAppend(ms[..|ms| - 1], [ms[|ms| - 1]]);
      assert ms[..|ms| - 1] + [ms[|ms| - 1]] == ms;
      rest + [last]
  }

  /** A message the worker can act on. */
  predicate WellFormed(m: Request)
  {
    m.SampleGridReq? ==> m.segments >= 1
  }

  /** The raster URL after a message: only an `init` whose `url` is truthy, that
      is present and non-empty, replaces it. */
  function UrlAfter(url: string, m: Request): (r: string)
    ensures m.Init? && m.url.Some? && m.url.value != "" ==> r == m.url.value
    ensures !(m.Init? && m.url.Some? && m.url.value != "") ==> r == url
  {
    match m
    case Init(Some(u)) => if u != "" then u else url
    case _ => url
  }

  /** The URL named by the last `init` with a non-empty `url` among `ms`, or
      `url0` when there is none. */
  function LastInitUrl(url0: string, ms: seq<Request>): string
  {
    if ms == [] then url0
    else match ms[|ms| - 1]
      case Init(Some(u)) => if u != "" then u else LastInitUrl(url0, ms[..|ms| - 1])
      case _ => LastInitUrl(url0, ms[..|ms| - 1])
  }

  /** `ensureCog` up to the handler's next step: the load starts only from the
      idle state, a handler suspends while it is pending, and once it has settled
      the handler decides its reply, which it posts later. */
  function Enqueue(s: WorkerState, m: Request): (s': WorkerState)
    requires !m.OtherRequest? && WellFormed(m)
    ensures s'.received == s.received && s'.url == s.url && s'.outbox == s.outbox
    ensures s'.loadsStarted == (if s.load.Idle? then s.loadsStarted + 1 else s.loadsStarted)
  {
    match s.load
    case Idle => s.(load := Loading, loadsStarted := s.loadsStarted + 1, waiting := s.waiting + [m])
    case Loading => s.(waiting := s.waiting + [m])
    case Loaded(_) => s.(inFlight := s.inFlight + [Answer(m, s.load)])
    case Failed => s.(inFlight := s.inFlight + [Answer(m, s.load)])
  }

  /** `onmessage`, up to its first `await`: every message is logged; `init` may
      replace the raster URL; `init` and `sampleGrid` then go through `ensureCog`;
      other types are ignored. */
  function Receive(s: WorkerState, m: Request): (s': WorkerState)
    requires WellFormed(m)
    ensures s'.received == s.received + [m] && s'.outbox == s.outbox
    ensures s'.url == UrlAfter(s.url, m)
    ensures s'.loadsStarted <= s.loadsStarted + 1
    ensures s'.loadsStarted == s.loadsStarted + 1 <==> s.load.Idle? && !m.OtherRequest?
  {
    var s1 := s.(received := s.received + [m]);
    if m.OtherRequest? then s1
    else Enqueue(s1.(url := UrlAfter(s.url, m)), m)
  }

  /** The raster load settles: `fetched` is the opened image, or None when the
      fetch threw. Every waiting handler resumes and decides its reply. A failed
      load stays memoised, so it is never retried. */
  function Settle(s: WorkerState, fetched: Option<Cog>): (s': WorkerState)
    requires forall i :: 0 <= i < |s.waiting| ==> !s.waiting[i].OtherRequest? && WellFormed(s.waiting[i])
    ensures s'.loadsStarted == s.loadsStarted && s'.received == s.received && s'.outbox == s.outbox
    ensures s.load.Loading? ==> s'.waiting == [] && (s'.load.Loaded? <==> fetched.Some?)
    ensures !s.load.Loading? ==> s' == s
  {
    if !s.load.Loading? then s
    else
      var load := if fetched.Some? then Loaded(fetched.value) else Failed;
      s.(load := load, waiting := [], inFlight := s.inFlight + AnswerAll(s.waiting, load))
  }

  /** One in-flight handler finishes and posts its reply. Which one finishes
      first is up to the raster reads, so `i` may pick any of them; an index past
      the end is a step in which no handler finishes. */
  function Resume(s: WorkerState, i: nat): (s': WorkerState)
    ensures i < |s.inFlight| ==>
              s'.outbox == s.outbox + [s.inFlight[i]]
              && multiset(s'.inFlight) + multiset{s.inFlight[i]} == multiset(s.inFlight)
    ensures i >= |s.inFlight| ==> s' == s
    ensures s'.received == s.received && s'.waiting == s.waiting && s'.load == s.load
    ensures s'.url == s.url && s'.loadsStarted == s.loadsStarted
  {
    if i >= |s.inFlight| then s
    else
      assert s.inFlight == s.inFlight[..i] + [s.inFlight[i]] + s.inFlight[i + 1..];
      s.(inFlight := s.inFlight[..i] + s.inFlight[i + 1..], outbox := s.outbox + [s.inFlight[i]])
  }

  /** The tags answered, decided or still owed, counted with multiplicity. */
  function Owed(s: WorkerState): multiset<Tag>
  {
    multiset(ReplyTags(s.outbox)) + multiset(ReplyTags(s.inFlight)) + multiset(RequestTags(s.waiting))
  }

  lemma EnqueueAccounts(s: WorkerState, m: Request)
    requires !m.OtherRequest? && WellFormed(m)
    requires !s.load.Loading? ==> s.waiting == []
    ensures Owed(Enqueue(s, m)) == Owed(s) + multiset(RequestTag(m))
  {
    if s.load.Idle? || s.load.Loading? {
      EnqueueWaits(s, m);
    } else {
      EnqueueAnswers(s, m);
    }
  }

  /** Before the load settles, the handler joins the waiting list. */
  lemma EnqueueWaits(s: WorkerState, m: Request)
    requires !m.OtherRequest? && WellFormed(m)
    requires s.load.Idle? || s.load.Loading?
    ensures Owed(Enqueue(s, m)) == Owed(s) + multiset(RequestTag(m))
  {
    RequestTagsPush(s.waiting, m);
    OwedMoreWaiting(s, Enqueue(s, m), multiset(RequestTag(m)));
  }

  lemma OwedMoreWaiting(s: WorkerState, s': WorkerState, more: multiset<Tag>)
    requires s'.outbox == s.outbox && s'.inFlight == s.inFlight
    requires multiset(RequestTags(s'.waiting)) == multiset(RequestTags(s.waiting)) + more
    ensures Owed(s') == Owed(s) + more
  {
  }

  /** After the load settles, the handler decides its reply at once. */
  lemma EnqueueAnswers(s: WorkerState, m: Request)
    requires !m.OtherRequest? && WellFormed(m)
    requires (s.load.Loaded? || s.load.Failed?) && s.waiting == []
    ensures Owed(Enqueue(s, m)) == Owed(s) + multiset(RequestTag(m))
  {
    var s' := Enqueue(s, m);
    var a := Answer(m, s.load);
    assert s'.inFlight == s.inFlight + [a] && s'.waiting == [];
    assert ReplyTags(s'.inFlight) == ReplyTags(s.inFlight) + [ReplyTag(a)] by {
      assert (s.inFlight + [a])[..|s.inFlight|] == s.inFlight;
    }
  }

  /** Finishing one handler moves its reply from in flight to posted. */
  lemma ResumeAccounts(s: WorkerState, i: nat)
    ensures Owed(Resume(s, i)) == Owed(s)
  {
    if i < |s.inFlight| {
      var s' := Resume(s, i);
      var p, q := s.inFlight[..i], s.inFlight[i + 1..];
      var x := s.inFlight[i];
      assert s.inFlight == p + [x] + q && s'.inFlight == p + q && s'.outbox == s.outbox + [x];
      ReplyBagRemove(p, x, q);
      ReplyBagPush(s.outbox, x);
    }
  }

  lemma ReplyBagPush(a: seq<Reply>, x: Reply)
    ensures multiset(ReplyTags(a + [x])) == multiset(ReplyTags(a)) + multiset{ReplyTag(x)}
  {
    ReplyTagsAppend(a, [x]);
  }

  lemma ReplyBagRemove(p: seq<Reply>, x: Reply, q: seq<Reply>)
    ensures multiset(ReplyTags(p + [x] + q)) == multiset(ReplyTags(p + q)) + multiset{ReplyTag(x)}
  {
    ReplyTagsAppend(p + [x], q);
    ReplyTagsAppend(p, [x]);
    ReplyTagsAppend(p, q);
  }

  /** The worker invariant: the load is started at most once; only a pending load
      has waiting handlers; the URL is the one the last non-empty `init` named;
      and the replies posted, the replies in flight and the waiting messages
      together carry every received message's tag exactly once. */
  ghost predicate WorkerInv(s: WorkerState)
  {
    LoadInv(s)
    && s.url == LastInitUrl(DefaultCogUrl, s.received)
    && Owed(s) == multiset(RequestTags(s.received))
  }

  /** The part of the invariant about the load and the waiting handlers. */
  predicate LoadInv(s: WorkerState)
  {
    s.loadsStarted == (if s.load.Idle? then 0 else 1)
    && (!s.load.Loading? ==> s.waiting == [])
    && (forall i :: 0 <= i < |s.waiting| ==> !s.waiting[i].OtherRequest? && WellFormed(s.waiting[i]))
  }

  lemma ReceiveLoadInv(s: WorkerState, m: Request)
    requires LoadInv(s) && WellFormed(m)
    ensures LoadInv(Receive(s, m))
  {
    if !m.OtherRequest? {
      var s1 := s.(received := s.received + [m], url := UrlAfter(s.url, m));
      assert Receive(s, m) == Enqueue(s1, m);
    }
  }

  lemma WorkerInitInv()
    ensures WorkerInv(WorkerInit)
  {
  }

  lemma ReceivePreserves(s: WorkerState, m: Request)
    requires WorkerInv(s) && WellFormed(m)
    ensures WorkerInv(Receive(s, m))
  {
    var s' := Receive(s, m);
    assert LoadInv(s') by {
      ReceiveLoadInv(s, m);
    }
    assert s'.url == LastInitUrl(DefaultCogUrl, s'.received) by {
      LastInitUrlPush(s.received, m);
    }
    assert multiset(RequestTags(s'.received)) == multiset(RequestTags(s.received)) + multiset(RequestTag(m)) by {
      RequestTagsPush(s.received, m);
    }
    assert Owed(s') == Owed(s) + multiset(RequestTag(m)) by {
      ReceiveOwed(s, m);
    }
  }

  lemma LastInitUrlPush(ms: seq<Request>, m: Request)
    ensures LastInitUrl(DefaultCogUrl, ms + [m]) == UrlAfter(LastInitUrl(DefaultCogUrl, ms), m)
  {
    assert (ms + [m])[..|ms|] == ms;
  }

  lemma RequestTagsPush(ms: seq<Request>, m: Request)
    ensures multiset(RequestTags(ms + [m])) == multiset(RequestTags(ms)) + multiset(RequestTag(m))
  {
    assert (ms + [m])[..|ms|] == ms;
  }

  lemma ReceiveOwed(s: WorkerState, m: Request)
    requires WellFormed(m)
    requires !s.load.Loading? ==> s.waiting == []
    ensures Owed(Receive(s, m)) == Owed(s) + multiset(RequestTag(m))
  {
    if !m.OtherRequest? {
      var s1 := s.(received := s.received + [m], url := UrlAfter(s.url, m));
      assert Owed(s1) == Owed(s);
      EnqueueAccounts(s1, m);
    }
  }

  lemma SettlePreserves(s: WorkerState, fetched: Option<Cog>)
    requires WorkerInv(s)
    ensures WorkerInv(Settle(s, fetched))
  {
    if s.load.Loading? {
      assert Owed(Settle(s, fetched)) == Owed(s) by {
        SettleOwed(s, fetched);
      }
    }
  }

  lemma SettleOwed(s: WorkerState, fetched: Option<Cog>)
    requires s.load.Loading?
    requires forall i :: 0 <= i < |s.waiting| ==> !s.waiting[i].OtherRequest? && WellFormed(s.waiting[i])
    ensures Owed(Settle(s, fetched)) == Owed(s)
  {
    var s' := Settle(s, fetched);
    var answers := AnswerAll(s.waiting, s'.load);
    assert s'.inFlight == s.inFlight + answers && s'.waiting == [] && s'.outbox == s.outbox;
    var o, f, w := multiset(ReplyTags(s.outbox)), multiset(ReplyTags(s.inFlight)), multiset(RequestTags(s.waiting));
    assert multiset(ReplyTags(s'.inFlight)) == f + w by {
      ReplyTagsAppend(s.inFlight, answers);
    }
    assert multiset(RequestTags(s'.waiting)) == multiset{};
    assert Owed(s') == o + (f + w) + multiset{};
    assert Owed(s) == o + f + w;
  }

  lemma ResumePreserves(s: WorkerState, i: nat)
    requires WorkerInv(s)
    ensures WorkerInv(Resume(s, i))
  {
    ResumeAccounts(s, i);
  }

  /** Worker events: a message arrives, the raster load settles, or one in-flight
      handler finishes. */
  datatype WorkerEvent = Message(m: Request) | LoadSettled(fetched: Option<Cog>) | Finished(i: nat)

  predicate EventWellFormed(e: WorkerEvent)
  {
    e.Message? ==> WellFormed(e.m)
  }

  function Step(s: WorkerState, e: WorkerEvent): WorkerState
    requires LoadInv(s) && EventWellFormed(e)
  {
    match e
    case Message(m) => Receive(s, m)
    case LoadSettled(f) => Settle(s, f)
    case Finished(i) => Resume(s, i)
  }

  lemma StepPreserves(s: WorkerState, e: WorkerEvent)
    requires WorkerInv(s) && EventWellFormed(e)
    ensures WorkerInv(Step(s, e))
  {
    match e
    case Message(m) => ReceivePreserves(s, m);
    case LoadSettled(f) => SettlePreserves(s, f);
    case Finished(i) => ResumePreserves(s, i);
  }

  /** Every event keeps the load part of the invariant, which is all `Step` needs. */
  lemma StepLoadInv(s: WorkerState, e: WorkerEvent)
    requires LoadInv(s) && EventWellFormed(e)
    ensures LoadInv(Step(s, e))
  {
    if e.Message? {
      ReceiveLoadInv(s, e.m);
    }
  }

  function Run(s: WorkerState, events: seq<WorkerEvent>): WorkerState
    requires LoadInv(s)
    requires forall i :: 0 <= i < |events| ==> EventWellFormed(events[i])
    decreases |events|
  {
    if events == [] then s
    else
      assert EventWellFormed(events[0]);
      StepLoadInv(s, events[0]);
      Run(Step(s, events[0]), events[1..])
  }

  /** Over any run: at most one load is ever started; no reply is posted that no
      received message asked for, counting tags with multiplicity; and once the
      load has settled and no handler is in flight, every `init` and `sampleGrid`
      message received has exactly one reply carrying its tag, in whatever order
      the handlers finished. */
  lemma RunAnswersEveryRequest(s: WorkerState, events: seq<WorkerEvent>)
    requires WorkerInv(s)
    requires forall i :: 0 <= i < |events| ==> EventWellFormed(events[i])
    ensures var t := Run(s, events);
            WorkerInv(t) && t.loadsStarted <= 1
            && multiset(ReplyTags(t.outbox)) <= multiset(RequestTags(t.received))
            && (!t.load.Loading? && t.inFlight == [] ==>
                  multiset(ReplyTags(t.outbox)) == multiset(RequestTags(t.received)))
  {
    RunPreserves(s, events);
    InvOutbox(Run(s, events));
  }

  /** Every run keeps the invariant. */
  lemma {:induction false} RunPreserves(s: WorkerState, events: seq<WorkerEvent>)
    requires WorkerInv(s)
    requires forall i :: 0 <= i < |events| ==> EventWellFormed(events[i])
    ensures WorkerInv(Run(s, events))
    decreases |events|
  {
    if events != [] {
      assert EventWellFormed(events[0]);
      var t := Step(s, events[0]);
      assert WorkerInv(t) by {
        StepPreserves(s, events[0]);
      }
      assert Run(s, events) == Run(t, events[1..]);
      RunPreserves(t, events[1..]);
    }
  }

  /** Under the invariant, the posted replies are part of what was asked for, and
      all of it once nothing waits and nothing is in flight. */
  lemma InvOutbox(s: WorkerState)
    requires WorkerInv(s)
    ensures multiset(ReplyTags(s.outbox)) <= multiset(RequestTags(s.received))
    ensures !s.load.Loading? && s.inFlight == [] ==>
              multiset(ReplyTags(s.outbox)) == multiset(RequestTags(s.received))
  {
    var o, f, w := multiset(ReplyTags(s.outbox)), multiset(ReplyTags(s.inFlight)), multiset(RequestTags(s.waiting));
    assert Owed(s) == o + f + w;
    if !s.load.Loading? && s.inFlight == [] {
      assert s.waiting == [];
      assert f == multiset{} && w == multiset{};
    }
  }

  // ---------------------------------------------------------------------------

  /** One resolved pending entry. */
  datatype Resolution = Resolution(id: int, heights: Option<seq<real>>)

  /** Main-thread view of the worker: `hasWorker`/`failed`/`ready` mirror
      `terrainWorker`, `terrainWorkerFailed`, `terrainWorkerReady`; `pending` is the
      key set of `terrainWorkerRequests`; `resolved` logs every resolve call. */
  datatype MainState = MainState(
    enabled: bool,
    hasWorker: bool,
    failed: bool,
    ready: bool,
    pending: set<int>,
    nextId: int,
    resolved: seq<Resolution>,
    posted: seq<Request>)

  function MainInit(enabled: bool): MainState
  {
    MainState(enabled, false, false, false, {}, 1, [], [])
  }

  /** `initTerrainWorker`: `constructed` is false when the Worker constructor throws. */
  function InitTerrainWorker(m: MainState, constructed: bool): (m': MainState)
    ensures !m.enabled || m.hasWorker || m.failed ==> m' == m
    ensures m.enabled && !m.hasWorker && !m.failed ==>
              (m'.hasWorker <==> constructed) && (m'.failed <==> !constructed)
              && m'.posted == m.posted + (if constructed then [Init(Some(DefaultCogUrl))] else [])
    ensures m'.pending == m.pending && m'.resolved == m.resolved && m'.nextId == m.nextId
  {
    if !m.enabled || m.hasWorker || m.failed then m
    else if !constructed then m.(failed := true)
    else m.(hasWorker := true, posted := m.posted + [Init(Some(DefaultCogUrl))])
  }

  /** `sampleHeightGridWorker`: None when there is no usable worker (the caller
      falls back); otherwise a fresh id is registered and the request posted. */
  function RequestGrid(m: MainState, b: GeoBounds, segments: nat): (r: (MainState, Option<int>))
    ensures r.1.None? <==> !m.hasWorker || m.failed
    ensures r.1.None? ==> r.0 == m
    ensures r.1.Some? ==>
              r.1.value == m.nextId && r.0.nextId == m.nextId + 1
              && r.0.pending == m.pending + {m.nextId} && r.0.resolved == m.resolved
              && r.0.posted == m.posted + [SampleGridReq(m.nextId, b, segments)]
  {
    if !m.hasWorker || m.failed then (m, None)
    else
      var id := m.nextId;
      (m.(nextId := id + 1, pending := m.pending + {id}, posted := m.posted + [SampleGridReq(id, b, segments)]), Some(id))
  }

  /** `terrainWorker.onmessage`. */
  function OnReply(m: MainState, r: Reply): (m': MainState)
    ensures r.Ready? || r.ReadyError? ==> m' == m.(ready := true)
    ensures (r.SampleGridResult? || r.SampleGridError?) && r.id !in m.pending ==> m' == m
    ensures r.SampleGridResult? && r.id in m.pending ==>
              m' == m.(pending := m.pending - {r.id}, resolved := m.resolved + [Resolution(r.id, r.heights)])
    ensures r.SampleGridError? && r.id in m.pending ==>
              m' == m.(pending := m.pending - {r.id}, resolved := m.resolved + [Resolution(r.id, None)])
  {
    match r
    case Ready(_, _) => m.(ready := true)
    case ReadyError => m.(ready := true)
    case SampleGridResult(id, h) =>
      if id !in m.pending then m else m.(pending := m.pending - {id}, resolved := m.resolved + [Resolution(id, h)])
    case SampleGridError(id) =>
      if id !in m.pending then m else m.(pending := m.pending - {id}, resolved := m.resolved + [Resolution(id, None)])
  }

  /** `terrainWorker.onerror`. */
  function OnWorkerError(m: MainState): (m': MainState)
    ensures m'.failed && m'.pending == m.pending && m'.resolved == m.resolved
  {
    m.(failed := true)
  }

  /** Main-side invariant: ids are handed out from 1 upwards; every pending or
      resolved id was handed out; no id is both pending and resolved; no id is
      resolved twice. */
  ghost predicate MainInv(m: MainState)
  {
    m.nextId >= 1
    && (forall id :: id in m.pending ==> 1 <= id < m.nextId)
    && (forall i :: 0 <= i < |m.resolved| ==> 1 <= m.resolved[i].id < m.nextId && m.resolved[i].id !in m.pending)
    && (forall i, j :: 0 <= i < j < |m.resolved| ==> m.resolved[i].id != m.resolved[j].id)
  }

  lemma MainInitInv(enabled: bool)
    ensures MainInv(MainInit(enabled))
  {
  }

  lemma RequestGridPreserves(m: MainState, b: GeoBounds, segments: nat)
    requires MainInv(m)
    ensures MainInv(RequestGrid(m, b, segments).0)
  {
  }

  lemma OnReplyPreserves(m: MainState, r: Reply)
    requires MainInv(m)
    ensures MainInv(OnReply(m, r))
  {
    if (r.SampleGridResult? || r.SampleGridError?) && r.id in m.pending {
      var m' := OnReply(m, r);
      assert m'.resolved[|m.resolved|].id == r.id;
      forall i, j | 0 <= i < j < |m'.resolved|
        ensures m'.resolved[i].id != m'.resolved[j].id
      {
        if j == |m.resolved| {
          assert m'.resolved[i] == m.resolved[i];
        }
      }
    }
  }

  /** A reply whose id is not pending (never issued, or already resolved) changes
      nothing: in particular a duplicate reply cannot resolve an entry twice. */
  lemma DuplicateReplyIgnored(m: MainState, r: Reply)
    requires MainInv(m)
    requires r.SampleGridResult? || r.SampleGridError?
    requires exists i :: 0 <= i < |m.resolved| && m.resolved[i].id == r.id
    ensures OnReply(m, r) == m
  {
  }

  /** drive.js `sampleHeightGrid`: null without the raster; the worker's grid when a
      usable worker answered with one; otherwise the main-thread sampler. */
  function ChooseGrid(cogLoaded: bool, workerUsable: bool, fromWorker: Option<seq<real>>, local: Option<seq<real>>): (r: Option<seq<real>>)
    ensures !cogLoaded ==> r.None?
    ensures cogLoaded ==> r == fromWorker || r == local
    ensures cogLoaded && workerUsable && fromWorker.Some? ==> r == fromWorker
    ensures cogLoaded && (!workerUsable || fromWorker.None?) ==> r == local
  {
    if !cogLoaded then None
    else if workerUsable && fromWorker.Some? then fromWorker
    else local
  }

  /** The heights a worker reply delivers to the main thread. */
  function Delivered(r: Reply): Option<seq<real>>
  {
    match r
    case SampleGridResult(_, h) => h
    case _ => None
  }

  /** When the worker and the main thread read the same raster of the assumed
      size, the grid a chunk receives does not depend on which path produced it. */
  lemma GridPathIndependent(cog: Cog, b: GeoBounds, segments: nat, id: int)
    requires segments >= 1
    requires cog.width == CogWidth && cog.height == CogHeight
    ensures var reply := Answer(SampleGridReq(id, b, segments), Loaded(cog));
            var local := SampleHeightGridLocal(Some(cog), b, segments);
            ChooseGrid(true, true, Delivered(reply), local) == local
  {
    WorkerMatchesLocal(Some(cog), b, segments);
  }
}
