/**
  The piece read path: cache hit, oversize stream, budget-rejected refetch,
  read-repair and buffer-verify-slice, with the weighted semaphore that bounds
  the bytes buffered at once.
 */
module FetchPiece {
  import opened Wrappers
  import opened ErasureCoding
  import opened ErasureRead
  import opened HttpRange

  /** The hash field of a piece: absent, a digest, or a text no verifier recognises. */
  datatype HashField = Absent | Recorded(claim: Claim)

  datatype PieceRef = PieceRef(id: PieceID, hash: HashField, sizeBytes: int)

  /** A backend call: it fails, or serves from `stored`; `readable` says whether the stream survives being buffered. */
  datatype Reply = Fails | Serves(stored: Bytes, readable: bool)

  /**
    One call of fetchPiece: the piece, the object size, the range if any, what the
    backend answers to the first call and to a refetch, what read-repair offers
    (None when it does not apply or fails), and whether a cached body can be read
    to its end.
   */
  datatype Request = Request(piece: PieceRef, objectSize: nat, range: Option<ByteRange>, first: Reply, again: Reply,
                             repair: Option<Bytes>, cacheReadable: bool)

  /** `budget` is None when the semaphore is disabled. */
  datatype Config = Config(hash: Bytes -> Hash, cached: bool, ceiling: nat, budget: Option<nat>)

  datatype Result = Served(bytes: Bytes, hit: bool) | Error

  /** The slice the code cuts: an end outside the buffer means its last byte; None when the start is out of bounds. */
  function Slice(buf: Bytes, range: Option<ByteRange>): Option<Bytes> {
    match range
    case None => Some(buf)
    case Some(r) =>
      var end := if r.end < 0 || r.end >= |buf| then |buf| - 1 else r.end;
      if r.start < 0 || r.start > end + 1 then None else Some(buf[r.start..end + 1])
  }

  function Reslice(buf: Bytes, range: Option<ByteRange>, hit: bool): Result {
    match Slice(buf, range)
    case None => Error
    case Some(bytes) => Served(bytes, hit)
  }

  function PieceSize(q: Request): nat {
    if q.piece.sizeBytes <= 0 then q.objectSize else q.piece.sizeBytes
  }

  predicate WantsFullPiece(cfg: Config, q: Request) {
    q.range.None? || (q.piece.hash != Absent && PieceSize(q) <= cfg.ceiling)
  }

  /** pieceintegrity.Verify refuses the bytes. */
  predicate Refused(cfg: Config, buf: Bytes, piece: PieceRef) {
    piece.hash.Recorded? && Mismatch(cfg.hash, buf, piece.hash.claim)
  }

  type Cache = map<PieceID, Bytes>

  /** A body in hand, waiting to be buffered and verified, with the weight it holds. */
  datatype Warm = Warm(q: Request, body: Reply, verified: bool, weight: nat)

  datatype Begun = Answered(result: Result) | Warming(warm: Warm)

  /** The body the backend or read-repair supplies for the fetch range, and whether it is already verified. */
  function Body(q: Request, range: Option<ByteRange>): Option<(Reply, bool)> {
    match q.first
    case Serves(stored, readable) =>
      (match Slice(stored, range)
       case None => None
       case Some(bytes) => Some((Serves(bytes, readable), false)))
    case Fails =>
      if q.repair.None? then None
      else
        match Slice(q.repair.value, range)
        case None => None
        case Some(bytes) => Some((Serves(bytes, true), true))
  }

  /** fetchPiece up to the point where it holds its semaphore weight. */
  function Begin(cfg: Config, cache: Cache, used: nat, q: Request): Begun {
    if cfg.cached && q.piece.id in cache then
      Answered(if q.range.Some? && !q.cacheReadable then Error else Reslice(cache[q.piece.id], q.range, true))
    else
      var full := WantsFullPiece(cfg, q);
      match Body(q, if full then None else q.range)
      case None => Answered(Error)
      case Some((body, verified)) =>
        if !full || PieceSize(q) > cfg.ceiling then Answered(Served(body.stored, false))
        else if cfg.budget.Some? && (PieceSize(q) > cfg.budget.value || used + PieceSize(q) > cfg.budget.value) then
          Answered(if q.range.None? then Served(body.stored, false)
                   else if verified then Reslice(body.stored, q.range, false)
                   else if q.again.Fails? then Error
                   else Reslice(q.again.stored, q.range, false))
        else Warming(Warm(q, body, verified, if cfg.budget.Some? then PieceSize(q) else 0))
  }

  /** The rest: buffer, verify, warm the cache, slice. */
  function Finish(cfg: Config, cache: Cache, w: Warm): (Cache, Result) {
    if w.body.Fails? || !w.body.readable then (cache, Error)
    else if !w.verified && Refused(cfg, w.body.stored, w.q.piece) then (cache, Error)
    else
      (if cfg.cached then cache[w.q.piece.id := w.body.stored] else cache,
       Reslice(w.body.stored, w.q.range, false))
  }

  /** A whole call; the cache may have been changed by others between its two halves. */
  function Answer(cfg: Config, cache: Cache, used: nat, later: Cache, q: Request): Result {
    match Begin(cfg, cache, used, q)
    case Answered(r) => r
    case Warming(w) => Finish(cfg, later, w).1
  }

  // ---------------------------------------------------------------- the handler

  class ReadPath {
    var cache: Cache
    var used: nat
    const config: Config

    constructor (config: Config)
      ensures this.config == config && cache == map[] && used == 0
    {
      this.config := config;
      cache, used := map[], 0;
    }

    method TryAcquire(n: nat) returns (ok: bool)
      requires config.budget.Some?
      modifies this`used
      ensures ok <==> old(used) + n <= config.budget.value
      ensures used == if ok then old(used) + n else old(used)
    {
      ok := used + n <= config.budget.value;
      if ok { used := used + n; }
    }

    method Release(n: nat)
      requires n <= used
      modifies this`used
      ensures used == old(used) - n
    {
      used := used - n;
    }

    /** One call on its own: the same answer as its two halves, and the weight it took is back on every path. */
    method Fetch(q: Request) returns (r: Result)
      modifies this
      ensures used == old(used)
      ensures match Begin(config, old(cache), old(used), q)
              case Answered(result) => r == result && cache == old(cache)
              case Warming(w) => (cache, r) == Finish(config, old(cache), w)
    {
      if config.cached && q.piece.id in cache {
        if q.range.None? { return Served(cache[q.piece.id], true); }
        if !q.cacheReadable { return Error; }
        return Reslice(cache[q.piece.id], q.range, true);
      }
      var full := WantsFullPiece(config, q);
      var got := Body(q, if full then None else q.range);
      if got.None? { return Error; }
      var body, verified := got.value.0, got.value.1;
      if !full || PieceSize(q) > config.ceiling { return Served(body.stored, false); }
      var weight := 0;
      if config.budget.Some? {
        var tooBig := PieceSize(q) > config.budget.value;
        var ok := false;
        if !tooBig { ok := TryAcquire(PieceSize(q)); }
        if !ok {
          if q.range.None? { return Served(body.stored, false); }
          if verified { return Reslice(body.stored, q.range, false); }
          if q.again.Fails? { return Error; }
          return Reslice(q.again.stored, q.range, false);
        }
        weight := PieceSize(q);
      }
      if !body.readable {
        Release(weight);
        return Error;
      }
      if !verified && Refused(config, body.stored, q.piece) {
        Release(weight);
        return Error;
      }
      if config.cached { cache := cache[q.piece.id := body.stored]; }
      Release(weight);
      r := Reslice(body.stored, q.range, false);
    }
  }

  // ---------------------------------------------------------------- every branch serves the slice

  /** The bytes a request for this range must get. */
  function Requested(content: Bytes, range: Option<ByteRange>): Bytes
    requires range.Some? ==> Satisfiable(range.value, |content|)
  {
    match range
    case None => content
    case Some(r) => content[r.start..Last(r, |content|) + 1]
  }

  /** Every source this call can draw on holds `content`. */
  ghost predicate Honest(cache: Cache, q: Request, content: Bytes) {
    && (q.piece.id in cache ==> cache[q.piece.id] == content)
    && (q.first.Serves? ==> q.first.stored == content)
    && (q.again.Serves? ==> q.again.stored == content)
    && (q.repair.Some? ==> q.repair.value == content)
  }

  lemma SliceIsRequested(content: Bytes, range: Option<ByteRange>)
    requires range.Some? ==> Satisfiable(range.value, |content|)
    ensures Slice(content, range) == Some(Requested(content, range))
  {}

  lemma BeginServes(cfg: Config, cache: Cache, used: nat, q: Request, content: Bytes)
    requires Honest(cache, q, content) && (q.range.Some? ==> Satisfiable(q.range.value, |content|))
    ensures match Begin(cfg, cache, used, q)
            case Answered(Served(bytes, _)) => bytes == Requested(content, q.range)
            case Answered(Error) => true
            case Warming(w) => w.q == q && w.body.Serves? && w.body.stored == content
  {
    SliceIsRequested(content, q.range);
  }

  /**
    Whatever branch is taken, a fetch that does not fail returns exactly the
    requested bytes, as many as the response headers announce.
   */
  lemma FetchIsSlice(cfg: Config, cache: Cache, used: nat, later: Cache, q: Request, content: Bytes)
    requires Honest(cache, q, content) && (q.range.Some? ==> Satisfiable(q.range.value, |content|))
    ensures var r := Answer(cfg, cache, used, later, q);
            r.Served? ==>
              && r.bytes == Requested(content, q.range)
              && |r.bytes| == if q.range.Some? then AnnouncedLength(q.range.value, |content|) else |content|
  {
    BeginServes(cfg, cache, used, q, content);
    SliceIsRequested(content, q.range);
  }

  /** ... and so for every Range header the gateway accepts for an object of that size. */
  lemma AcceptedHeaderIsServed(cfg: Config, cache: Cache, used: nat, later: Cache, q: Request, content: Bytes,
      h: string)
    requires Honest(cache, q, content) && q.range.Some? && ParseHTTPRange(h, |content|) == q.range
    ensures var r := Answer(cfg, cache, used, later, q);
            r.Served? ==>
              r.bytes == Requested(content, q.range) && |r.bytes| == AnnouncedLength(q.range.value, |content|) > 0
  {
    AcceptedIsSatisfiable(h, |content|);
    FetchIsSlice(cfg, cache, used, later, q, content);
  }

  /**
    With sources that hold the content, and content that its hash field does not
    refuse, a cache hit fails exactly when a range is cut from a cached body that cannot
    be read, and any other call exactly when the backend fails and read-repair has
    nothing, when the stream breaks while it is buffered, or when the budget refuses a
    range and the refetch fails.
   */
  lemma FetchFailsIff(cfg: Config, cache: Cache, used: nat, later: Cache, q: Request, content: Bytes)
    requires Honest(cache, q, content) && (q.range.Some? ==> Satisfiable(q.range.value, |content|))
    requires !Refused(cfg, content, q.piece)
    ensures var r := Answer(cfg, cache, used, later, q);
            var hit := cfg.cached && q.piece.id in cache;
            r.Error? <==>
              if hit then q.range.Some? && !q.cacheReadable
              else
                || (q.first.Fails? && q.repair.None?)
                || (q.first.Serves? && !Unchecked(cfg, used, q) && !q.first.readable)
                || (q.first.Serves? && q.range.Some? && q.piece.hash != Absent && Announced(q) <= cfg.ceiling
                    && Unchecked(cfg, used, q) && q.again.Fails?)
  {
    SliceIsRequested(content, q.range);
  }

  /**
    A call that buffers its piece leaves it in the cache: any later call for the piece is
    a hit, whatever the backend and the budget have become.
   */
  lemma BufferedIsCached(cfg: Config, cache: Cache, used: nat, later: Cache, q: Request, content: Bytes,
                         used': nat, later': Cache, q': Request)
    requires cfg.cached && q.piece.id !in cache && q.first == Serves(content, true) && !Refused(cfg, content, q.piece)
    requires !Unchecked(cfg, used, q)
    requires q'.piece.id == q.piece.id && q'.cacheReadable
    requires q'.range.Some? ==> Satisfiable(q'.range.value, |content|)
    ensures var b := Begin(cfg, cache, used, q);
            && b.Warming? && q.piece.id in Finish(cfg, later, b.warm).0
            && Answer(cfg, Finish(cfg, later, b.warm).0, used', later', q')
            == Served(Requested(content, q'.range), true)
  {
    SliceIsRequested(content, q'.range);
  }

  // ---------------------------------------------------------------- backends that lie

  /** The bytes carry the digest the manifest claims. */
  ghost predicate Matches(cfg: Config, bytes: Bytes, piece: PieceRef) {
    piece.hash.Recorded? && piece.hash.claim.Digest? && cfg.hash(bytes) == piece.hash.claim.hash
  }

  /** The call streams bytes it has not checked: too large to buffer, or refused by the budget. */
  predicate Unchecked(cfg: Config, used: nat, q: Request) {
    || (q.range.Some? && q.piece.hash == Absent) || Announced(q) > cfg.ceiling
    || (cfg.budget.Some? && used + Announced(q) > cfg.budget.value)
  }

  /** The size a call reckons with: the piece's own, where it is recorded, or the object's. */
  function Announced(q: Request): nat { if q.piece.sizeBytes > 0 then q.piece.sizeBytes else q.objectSize }

  /** What the call serves, if anything, is the requested slice of bytes that carry the claimed digest. */
  ghost predicate Trusted(cfg: Config, cache: Cache, used: nat, later: Cache, q: Request) {
    var r := Answer(cfg, cache, used, later, q);
    r.Served? ==> exists content :: Matches(cfg, content, q.piece) && Slice(content, q.range) == Some(r.bytes)
  }

  /**
    With a recognised digest, whatever the backend sends, a served body is the
    requested slice of bytes that match it, unless the call is one of the
    unchecked streams.
   */
  lemma CheckedFetchMatches(cfg: Config, cache: Cache, used: nat, later: Cache, q: Request)
    requires q.piece.hash.Recorded? && q.piece.hash.claim.Digest? && !Unchecked(cfg, used, q)
    requires cfg.cached && q.piece.id in cache ==> Matches(cfg, cache[q.piece.id], q.piece)
    requires q.first.Fails? && q.repair.Some? ==> Matches(cfg, q.repair.value, q.piece)
    ensures Trusted(cfg, cache, used, later, q)
  {
    var b := Begin(cfg, cache, used, q);
    if b.Warming? && Finish(cfg, later, b.warm).1.Served? {
      assert Matches(cfg, b.warm.body.stored, q.piece);
    }
  }

  /** The request as a backend that holds x answers it. */
  function Holding(q: Request, x: Bytes): Request { q.(first := Serves(x, true), again := Serves(x, true)) }

  /** A range some object satisfies. */
  predicate Sensible(range: Option<ByteRange>) {
    range.Some? ==> range.value.start >= 0 && (range.value.end < 0 || range.value.end >= range.value.start)
  }

  /** Bytes of which the range cuts exactly [b]. */
  function Probe(range: Option<ByteRange>, b: Byte): (x: Bytes)
    requires Sensible(range)
    ensures Slice(x, range) == Some([b])
  {
    var x := seq(if range.None? then 1 else range.value.start + 1, i => b);
    assert x[|x| - 1..] == [b] && x[..|x|] == x;
    assert |x| == 1 ==> x == [b];
    x
  }

  lemma UncheckedServes(cfg: Config, cache: Cache, used: nat, later: Cache, q: Request, x: Bytes, bytes: Bytes)
    requires Unchecked(cfg, used, q) && !(cfg.cached && q.piece.id in cache) && Slice(x, q.range) == Some(bytes)
    ensures Answer(cfg, cache, used, later, Holding(q, x)) == Served(bytes, false)
  {}

  /**
    Exactly the calls that are not unchecked streams can be trusted whatever the backend
    holds: an unchecked one that misses the cache serves what it is sent.
   */
  lemma TrustedIff(cfg: Config, cache: Cache, used: nat, later: Cache, q: Request)
    requires CollisionFree(cfg.hash) && q.piece.hash.Recorded? && q.piece.hash.claim.Digest? && Sensible(q.range)
    requires !(cfg.cached && q.piece.id in cache)
    ensures (forall x :: Trusted(cfg, cache, used, later, Holding(q, x))) <==> !Unchecked(cfg, used, q)
  {
    if Unchecked(cfg, used, q) {
      var x, y := Probe(q.range, 0), Probe(q.range, 1);
      UncheckedServes(cfg, cache, used, later, q, x, [0]);
      UncheckedServes(cfg, cache, used, later, q, y, [1]);
      assert !Trusted(cfg, cache, used, later, Holding(q, x)) || !Trusted(cfg, cache, used, later, Holding(q, y));
    } else {
      forall x
        ensures Trusted(cfg, cache, used, later, Holding(q, x))
      {
        CheckedFetchMatches(cfg, cache, used, later, Holding(q, x));
      }
    }
  }

  // ---------------------------------------------------------------- runs

  /** Calls in flight hold their weight between Begin and Finish. */
  datatype State = State(cache: Cache, used: nat, inflight: seq<Warm>)

  datatype Event = Open(q: Request) | Close(i: nat)

  function Do(cfg: Config, s: State, e: Event): (State, Option<Result>) {
    match e
    case Open(q) =>
      (match Begin(cfg, s.cache, s.used, q)
       case Answered(r) => (s, Some(r))
       case Warming(w) => (State(s.cache, s.used + w.weight, s.inflight + [w]), None))
    case Close(i) =>
      if i >= |s.inflight| then (s, None)
      else
        var w := s.inflight[i];
        var (cache, r) := Finish(cfg, s.cache, w);
        (State(cache, if s.used >= w.weight then s.used - w.weight else 0, s.inflight[..i] + s.inflight[i + 1..]),
          Some(r))
  }

  function After(cfg: Config, events: seq<Event>): State {
    if events == [] then State(map[], 0, [])
    else Do(cfg, After(cfg, events[..|events| - 1]), events[|events| - 1]).0
  }

  function Weight(inflight: seq<Warm>): nat {
    if inflight == [] then 0 else Weight(inflight[..|inflight| - 1]) + inflight[|inflight| - 1].weight
  }

  lemma {:induction false} WeightWithout(inflight: seq<Warm>, i: nat)
    requires i < |inflight|
    ensures Weight(inflight) == Weight(inflight[..i] + inflight[i + 1..]) + inflight[i].weight
  {
    var n := |inflight| - 1;
    if i == n {
      assert inflight[..i] + inflight[i + 1..] == inflight[..n];
    } else {
      WeightWithout(inflight[..n], i);
      var rest := inflight[..i] + inflight[i + 1..];
      assert rest[..|rest| - 1] == inflight[..n][..i] + inflight[..n][i + 1..];
      assert rest[|rest| - 1] == inflight[n];
    }
  }

  /** The semaphore's count is the weight of the calls in flight, and within the budget. */
  ghost predicate Balanced(cfg: Config, s: State) {
    s.used == Weight(s.inflight) && (cfg.budget.Some? ==> s.used <= cfg.budget.value)
  }

  /** A call goes on to buffer only with its weight inside the budget. */
  lemma BeginWithinBudget(cfg: Config, cache: Cache, used: nat, q: Request)
    ensures var b := Begin(cfg, cache, used, q);
            b.Warming? && cfg.budget.Some? ==> used + b.warm.weight <= cfg.budget.value
    ensures var b := Begin(cfg, cache, used, q);
            b.Warming? && cfg.budget.None? ==> b.warm.weight == 0
  {}

  lemma WeightWith(inflight: seq<Warm>, w: Warm)
    ensures Weight(inflight + [w]) == Weight(inflight) + w.weight
  {
    assert (inflight + [w])[..|inflight|] == inflight;
  }

  lemma OpenBalanced(cfg: Config, s: State, q: Request)
    requires Balanced(cfg, s)
    ensures Balanced(cfg, Do(cfg, s, Open(q)).0)
  {
    BeginWithinBudget(cfg, s.cache, s.used, q);
    var b := Begin(cfg, s.cache, s.used, q);
    if b.Warming? { WeightWith(s.inflight, b.warm); }
  }

  lemma CloseBalanced(cfg: Config, s: State, i: nat)
    requires Balanced(cfg, s)
    ensures Balanced(cfg, Do(cfg, s, Close(i)).0)
  {
    if i < |s.inflight| { WeightWithout(s.inflight, i); }
  }

  lemma StepBalanced(cfg: Config, s: State, e: Event)
    requires Balanced(cfg, s)
    ensures Balanced(cfg, Do(cfg, s, e).0)
  {
    match e
    case Open(q) => OpenBalanced(cfg, s, q);
    case Close(i) => CloseBalanced(cfg, s, i);
  }

  /**
    Over every interleaving of calls: the weight in use is exactly that of the
    calls in flight, never above the budget, and back to zero when none is left,
    so each call returned its weight exactly once.
   */
  lemma {:induction false} SemaphoreNeverLeaks(cfg: Config, events: seq<Event>)
    ensures Balanced(cfg, After(cfg, events))
    ensures After(cfg, events).inflight == [] ==> After(cfg, events).used == 0
  {
    if events != [] {
      SemaphoreNeverLeaks(cfg, events[..|events| - 1]);
      StepBalanced(cfg, After(cfg, events[..|events| - 1]), events[|events| - 1]);
    }
  }

  /** How many calls went on to buffer, and how many of those have been answered. */
  function Opened(cfg: Config, events: seq<Event>): nat {
    if events == [] then 0
    else
      var before, e := events[..|events| - 1], events[|events| - 1];
      Opened(cfg, before) + (if e.Open? && Do(cfg, After(cfg, before), e).1.None? then 1 else 0)
  }

  function Closed(cfg: Config, events: seq<Event>): nat {
    if events == [] then 0
    else
      var before, e := events[..|events| - 1], events[|events| - 1];
      Closed(cfg, before) + (if e.Close? && Do(cfg, After(cfg, before), e).1.Some? then 1 else 0)
  }

  /** Over every interleaving each call is answered once: at once, or when its buffering ends. */
  lemma {:induction false} AnsweredOnce(cfg: Config, events: seq<Event>)
    ensures Opened(cfg, events) == Closed(cfg, events) + |After(cfg, events).inflight|
  {
    if events != [] { AnsweredOnce(cfg, events[..|events| - 1]); }
  }

  /** The sizes of the bodies being buffered. */
  function Buffered(inflight: seq<Warm>): nat {
    if inflight == [] then 0 else Buffered(inflight[..|inflight| - 1]) + Announced(inflight[|inflight| - 1].q)
  }

  lemma {:induction false} WeightIsBuffered(inflight: seq<Warm>)
    requires forall w :: w in inflight ==> w.weight == Announced(w.q)
    ensures Weight(inflight) == Buffered(inflight)
  {
    if inflight != [] {
      WeightIsBuffered(inflight[..|inflight| - 1]);
      assert inflight[|inflight| - 1] in inflight;
    }
  }

  lemma {:induction false} WeightsAreSizes(cfg: Config, events: seq<Event>)
    requires cfg.budget.Some?
    ensures forall w :: w in After(cfg, events).inflight ==> w.weight == Announced(w.q)
  {
    if events != [] { WeightsAreSizes(cfg, events[..|events| - 1]); }
  }

  /** Over every interleaving the bodies buffered at once together never exceed the budget. */
  lemma BufferedWithinBudget(cfg: Config, events: seq<Event>)
    requires cfg.budget.Some?
    ensures Buffered(After(cfg, events).inflight) <= cfg.budget.value
  {
    WeightsAreSizes(cfg, events);
    WeightIsBuffered(After(cfg, events).inflight);
    SemaphoreNeverLeaks(cfg, events);
  }

  /** Each piece ID has one hash field, and read-repair, which verifies, offers only bytes it does not refuse. */
  ghost predicate Consistent(cfg: Config, hashes: map<PieceID, HashField>, events: seq<Event>) {
    forall e :: e in events && e.Open? ==>
      && e.q.piece.id in hashes && hashes[e.q.piece.id] == e.q.piece.hash
      && (e.q.repair.Some? ==> !Refused(cfg, e.q.repair.value, e.q.piece))
  }

  predicate Recognised(h: HashField) { h.Recorded? && h.claim.Digest? }

  ghost predicate CacheOk(cfg: Config, hashes: map<PieceID, HashField>, cache: Cache) {
    forall id :: id in cache ==>
      id in hashes && (Recognised(hashes[id]) ==> cfg.hash(cache[id]) == hashes[id].claim.hash)
  }

  ghost predicate FlightOk(cfg: Config, hashes: map<PieceID, HashField>, w: Warm) {
    && w.q.piece.id in hashes && hashes[w.q.piece.id] == w.q.piece.hash
    && (w.verified && w.body.Serves? ==> !Refused(cfg, w.body.stored, w.q.piece))
  }

  ghost predicate AllOk(cfg: Config, hashes: map<PieceID, HashField>, s: State) {
    CacheOk(cfg, hashes, s.cache) && forall w :: w in s.inflight ==> FlightOk(cfg, hashes, w)
  }

  /** Over every interleaving, whatever the backends send: what is cached for a recognised digest matches it. */
  lemma {:induction false} CacheHoldsMatches(cfg: Config, hashes: map<PieceID, HashField>, events: seq<Event>)
    requires Consistent(cfg, hashes, events)
    ensures AllOk(cfg, hashes, After(cfg, events))
  {
    if events != [] {
      var prior, e := events[..|events| - 1], events[|events| - 1];
      CacheHoldsMatches(cfg, hashes, prior);
      assert e in events;
      StepCacheOk(cfg, hashes, After(cfg, prior), e);
    }
  }

  lemma StepCacheOk(cfg: Config, hashes: map<PieceID, HashField>, s: State, e: Event)
    requires AllOk(cfg, hashes, s) && Consistent(cfg, hashes, [e])
    ensures AllOk(cfg, hashes, Do(cfg, s, e).0)
  {
    assert e in [e];
    match e
    case Open(q) =>
      var b := Begin(cfg, s.cache, s.used, q);
      if b.Warming? { assert FlightOk(cfg, hashes, b.warm); }
    case Close(i) =>
      if i < |s.inflight| { assert s.inflight[i] in s.inflight; }
  }

  /**
    The recognised digest is needed: of the bodies a call buffers itself and
    serves, the cached bytes match a digest exactly when the piece's hash field is
    one; under an absent or unrecognised field the backend's bytes are cached as
    they come.
   */
  lemma CachedMatchesIff(cfg: Config, cache: Cache, w: Warm)
    requires cfg.cached && !w.verified && Finish(cfg, cache, w).1.Served?
    ensures Finish(cfg, cache, w).0 == cache[w.q.piece.id := w.body.stored]
    ensures Matches(cfg, w.body.stored, w.q.piece) <==> Recognised(w.q.piece.hash)
  {}
}
