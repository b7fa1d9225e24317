/** Slot reservation for the channel API (backend/apps/chat/channel_quota.py).

    Many clients count themselves in two or four windows at once. The Redis path increments first,
    looks at the results, and takes a refused increment back in a second pipeline, so other clients
    see it in between. Each pipeline is one atomic step here, and any number of clients interleave.
    The in-memory fallback checks before it writes.
 */
module ChannelQuota {
  import opened Basics

  /** A counter names its window; the source spells these constructors as key prefixes. */
  datatype Key =
    | Day(tenant: int, credential: int, period: string)
    | Minute(tenant: int, credential: int, minute: int)
    | SessionMinute(tenant: int, credential: int, scope: string, minute: int)
    | SessionBurst(tenant: int, credential: int, scope: string, burst: int)

  /** `now` is in seconds; `scope` is the stripped session key; 0 stands for a missing limit. */
  datatype Call = Call(tenant: int, credential: int, dailyLimit: int, minuteLimit: int, now: int, period: string,
                       scope: string, sessionMinuteLimit: int, sessionBurstLimit: int)

  datatype Window = Window(key: Key, limit: int)

  datatype Verdict = Granted | DailyLimit | MinuteLimit | SessionLimit | Unavailable

  function AtLeastOne(limit: int): int { if limit < 1 then 1 else limit }

  predicate SessionLimited(c: Call) {
    c.scope != "" && c.sessionMinuteLimit != 0 && c.sessionBurstLimit != 0
  }

  function Windows(c: Call): seq<Window> {
    [Window(Day(c.tenant, c.credential, c.period), AtLeastOne(c.dailyLimit)),
     Window(Minute(c.tenant, c.credential, c.now / 60), AtLeastOne(c.minuteLimit))]
    + if SessionLimited(c) then
        [Window(SessionMinute(c.tenant, c.credential, c.scope, c.now / 60), AtLeastOne(c.sessionMinuteLimit)),
         Window(SessionBurst(c.tenant, c.credential, c.scope, c.now / 10), AtLeastOne(c.sessionBurstLimit))]
      else []
  }

  function KeysOf(ws: seq<Window>): seq<Key> { seq(|ws|, i requires 0 <= i < |ws| => ws[i].key) }

  function Keys(c: Call): set<Key> { set w | w in Windows(c) :: w.key }

  /** A missing counter reads as zero. */
  function Count(m: map<Key, int>, k: Key): int { if k in m then m[k] else 0 }

  function Add(m: map<Key, int>, keys: set<Key>, delta: int): map<Key, int> {
    map k | k in m.Keys + keys :: Count(m, k) + if k in keys then delta else 0
  }

  /** The refusal is named after the first window that is over its limit. */
  function Judge(ws: seq<Window>, counts: seq<int>): Verdict
    requires |ws| == |counts| >= 2
  {
    if counts[0] > ws[0].limit then DailyLimit
    else if counts[1] > ws[1].limit then MinuteLimit
    else if exists i :: 2 <= i < |ws| && counts[i] > ws[i].limit then SessionLimit
    else Granted
  }

  function Counts(m: map<Key, int>, ws: seq<Window>): seq<int> {
    seq(|ws|, i requires 0 <= i < |ws| => Count(m, ws[i].key))
  }

  lemma DistinctWindows(c: Call)
    ensures 2 <= |Windows(c)| <= 4
    ensures forall i, j :: 0 <= i < j < |Windows(c)| ==> Windows(c)[i].key != Windows(c)[j].key
    ensures forall w :: w in Windows(c) ==> w.limit >= 1 && w.key in Keys(c)
  {
  }

  // ------------------------------------------------------------------ interleaved clients

  /** A client between its steps: it owns a granted slot, or has been refused and not yet rolled back. */
  datatype Phase = Holding(keys: set<Key>) | RollingBack(keys: set<Key>)

  datatype State = State(counters: map<Key, int>, clients: map<nat, Phase>)

  datatype Event = Reserve(client: nat, call: Call) | Rollback(client: nat) | Release(client: nat)

  const START: State := State(map[], map[])

  predicate Enabled(s: State, e: Event) {
    match e
    case Reserve(c, _) => c !in s.clients
    case Rollback(c) => c in s.clients && s.clients[c].RollingBack?
    case Release(c) => c in s.clients && s.clients[c].Holding?
  }

  function Step(s: State, e: Event): State
    requires Enabled(s, e)
  {
    match e
    case Reserve(c, call) =>
      var counters := Add(s.counters, Keys(call), 1);
      var verdict := Judge(Windows(call), Counts(counters, Windows(call)));
      State(counters, s.clients[c := if verdict == Granted then Holding(Keys(call)) else RollingBack(Keys(call))])
    case Rollback(c) => State(Add(s.counters, s.clients[c].keys, -1), s.clients - {c})
    case Release(c) => State(Add(s.counters, s.clients[c].keys, -1), s.clients - {c})
  }

  predicate ValidRun(s: State, es: seq<Event>)
    decreases |es|
  {
    es == [] || (Enabled(s, es[0]) && ValidRun(Step(s, es[0]), es[1..]))
  }

  function Run(s: State, es: seq<Event>): State
    requires ValidRun(s, es)
    decreases |es|
  {
    if es == [] then s else Run(Step(s, es[0]), es[1..])
  }

  function Occupants(clients: map<nat, Phase>, k: Key): set<nat> {
    set c | c in clients && k in clients[c].keys
  }

  function Holders(clients: map<nat, Phase>, k: Key): set<nat> {
    set c | c in clients && k in clients[c].keys && clients[c].Holding?
  }

  /** No client ever presents a limit above `bound`; with one fixed limit per key this is that limit. */
  ghost predicate WithinBound(e: Event, bound: Key -> nat) {
    e.Reserve? ==> forall w :: w in Windows(e.call) ==> w.limit <= bound(w.key)
  }

  ghost predicate Invariant(s: State, bound: Key -> nat) {
    && (forall k :: Count(s.counters, k) == |Occupants(s.clients, k)|)
    && (forall k :: |Holders(s.clients, k)| <= bound(k))
  }

  lemma Arrival(clients: map<nat, Phase>, c: nat, p: Phase, k: Key)
    requires c !in clients
    ensures |Occupants(clients[c := p], k)| == |Occupants(clients, k)| + if k in p.keys then 1 else 0
    ensures |Holders(clients[c := p], k)| == |Holders(clients, k)| + if k in p.keys && p.Holding? then 1 else 0
  {
    assert Occupants(clients[c := p], k) == if k in p.keys then Occupants(clients, k) + {c} else Occupants(clients, k);
    assert Holders(clients[c := p], k)
        == if k in p.keys && p.Holding? then Holders(clients, k) + {c} else Holders(clients, k);
  }

  lemma Departure(clients: map<nat, Phase>, c: nat, k: Key)
    requires c in clients
    ensures |Occupants(clients - {c}, k)| == |Occupants(clients, k)| - if k in clients[c].keys then 1 else 0
    ensures |Holders(clients - {c}, k)| <= |Holders(clients, k)|
  {
    var rest := clients - {c};
    assert clients == rest[c := clients[c]];
    Arrival(rest, c, clients[c], k);
  }

  lemma HoldersOccupy(clients: map<nat, Phase>, k: Key)
    ensures Holders(clients, k) <= Occupants(clients, k)
    ensures |Holders(clients, k)| <= |Occupants(clients, k)|
    ensures (forall c :: c in clients ==> clients[c].Holding?) ==> Holders(clients, k) == Occupants(clients, k)
  {
    var rest := Occupants(clients, k) - Holders(clients, k);
    assert Occupants(clients, k) == Holders(clients, k) + rest;
  }

  /** No window before the i-th is over its limit, and the i-th is. */
  predicate FirstOver(ws: seq<Window>, counts: seq<int>, i: nat)
    requires |ws| == |counts| && i < |ws|
  {
    counts[i] > ws[i].limit && forall j :: 0 <= j < i ==> counts[j] <= ws[j].limit
  }

  lemma GrantedMeansWithin(ws: seq<Window>, counts: seq<int>)
    requires |ws| == |counts| >= 2
    ensures Judge(ws, counts) == Granted <==> forall i :: 0 <= i < |ws| ==> counts[i] <= ws[i].limit
  {
    if forall i :: 0 <= i < |ws| ==> counts[i] <= ws[i].limit {
      assert counts[0] <= ws[0].limit && counts[1] <= ws[1].limit;
    }
  }

  /** Granted exactly if no count exceeds its limit; otherwise the message names the first window over its limit:
      the day, the minute, or one of the session's two. */
  lemma GrantedIffWithin(ws: seq<Window>, counts: seq<int>)
    requires |ws| == |counts| >= 2
    ensures Judge(ws, counts) == Granted <==> forall i :: 0 <= i < |ws| ==> counts[i] <= ws[i].limit
    ensures Judge(ws, counts) == DailyLimit <==> FirstOver(ws, counts, 0)
    ensures Judge(ws, counts) == MinuteLimit <==> FirstOver(ws, counts, 1)
    ensures Judge(ws, counts) == SessionLimit <==> exists i :: 2 <= i < |ws| && FirstOver(ws, counts, i)
  {
    GrantedMeansWithin(ws, counts);
    if Judge(ws, counts) == SessionLimit {
      var i :| 2 <= i < |ws| && counts[i] > ws[i].limit;
      FirstOverExists(ws, counts, i);
    }
  }

  lemma {:induction false} FirstOverExists(ws: seq<Window>, counts: seq<int>, i: nat)
    requires |ws| == |counts| >= 2 && 2 <= i < |ws| && counts[i] > ws[i].limit
    requires counts[0] <= ws[0].limit && counts[1] <= ws[1].limit
    ensures exists k :: 2 <= k < |ws| && FirstOver(ws, counts, k)
    decreases i
  {
    if !FirstOver(ws, counts, i) {
      var j :| 0 <= j < i && counts[j] > ws[j].limit;
      FirstOverExists(ws, counts, j);
    }
  }

  lemma StepKeepsInvariant(s: State, e: Event, bound: Key -> nat)
    requires Enabled(s, e) && Invariant(s, bound) && WithinBound(e, bound)
    ensures Invariant(Step(s, e), bound)
  {
    var t := Step(s, e);
    forall k: Key
      ensures Count(t.counters, k) == |Occupants(t.clients, k)| && |Holders(t.clients, k)| <= bound(k)
    {
      match e
      case Reserve(c, call) =>
        Arrival(s.clients, c, t.clients[c], k);
        HoldersOccupy(t.clients, k);
        GrantedMeansWithin(Windows(call), Counts(t.counters, Windows(call)));
        if t.clients[c].Holding? && k in Keys(call) {
          var i :| 0 <= i < |Windows(call)| && Windows(call)[i].key == k;
          assert Counts(t.counters, Windows(call))[i] <= Windows(call)[i].limit;
          assert Windows(call)[i] in Windows(call);
        }
      case Rollback(c) => Departure(s.clients, c, k);
      case Release(c) => Departure(s.clients, c, k);
    }
  }

  lemma {:induction false} RunKeepsInvariant(s: State, es: seq<Event>, bound: Key -> nat)
    requires ValidRun(s, es) && Invariant(s, bound)
    requires forall e :: e in es ==> WithinBound(e, bound)
    ensures Invariant(Run(s, es), bound)
    decreases |es|
  {
    if es != [] {
      assert es[0] in es;
      StepKeepsInvariant(s, es[0], bound);
      assert forall e :: e in es[1..] ==> e in es;
      RunKeepsInvariant(Step(s, es[0]), es[1..], bound);
    }
  }

  /** In every interleaving a counter is the granted slots plus the refused increments not yet taken
      back; so no window is ever granted beyond its limit, and at rest the counter is what is outstanding. */
  lemma QuotaIsNeverExceeded(es: seq<Event>, bound: Key -> nat, k: Key)
    requires ValidRun(START, es) && forall e :: e in es ==> WithinBound(e, bound)
    ensures
      var s := Run(START, es);
      && Count(s.counters, k) == |Occupants(s.clients, k)|
      && |Holders(s.clients, k)| <= bound(k)
      && ((forall c :: c in s.clients ==> s.clients[c].Holding?) ==> Count(s.counters, k) == |Holders(s.clients, k)|)
  {
    assert forall j :: Occupants(map[], j) == {} && Holders(map[], j) == {};
    RunKeepsInvariant(START, es, bound);
    HoldersOccupy(Run(START, es).clients, k);
  }

  /** A request is granted exactly when every window has room beside all current occupants,
      those waiting for their rollback included. */
  lemma GrantedIffRoomBesideOccupants(s: State, c: nat, call: Call, bound: Key -> nat)
    requires Invariant(s, bound) && c !in s.clients
    ensures Step(s, Reserve(c, call)).clients[c].Holding? <==>
            forall w :: w in Windows(call) ==> |Occupants(s.clients, w.key)| < w.limit
  {
    var ws := Windows(call);
    var counts := Counts(Add(s.counters, Keys(call), 1), ws);
    DistinctWindows(call);
    GrantedMeansWithin(ws, counts);
    forall i | 0 <= i < |ws|
      ensures counts[i] == |Occupants(s.clients, ws[i].key)| + 1
    {
      assert ws[i] in ws;
    }
    if forall w :: w in ws ==> |Occupants(s.clients, w.key)| < w.limit {
      forall i | 0 <= i < |ws| ensures counts[i] <= ws[i].limit { assert ws[i] in ws; }
    }
  }

  function SampleCall(): Call { Call(1, 1, 1, 9, 0, "d", "", 0, 0) }

  function SampleRun(): seq<Event> {
    [Reserve(1, SampleCall()), Reserve(2, SampleCall()), Release(1), Reserve(3, SampleCall())]
  }

  lemma SampleReserve(s: State, c: nat)
    requires c !in s.clients && Count(s.counters, Minute(1, 1, 0)) < 9
    ensures
      var t := Step(s, Reserve(c, SampleCall()));
      && t.clients == s.clients[c := t.clients[c]] && t.clients[c].keys == {Day(1, 1, "d"), Minute(1, 1, 0)}
      && t.clients[c].Holding? == (Count(s.counters, Day(1, 1, "d")) < 1)
      && t.counters == Add(s.counters, t.clients[c].keys, 1)
  {
    var day, minute := Day(1, 1, "d"), Minute(1, 1, 0);
    var ws := Windows(SampleCall());
    assert ws == [Window(day, 1), Window(minute, 9)];
    assert Keys(SampleCall()) == {day, minute} by { assert ws[0] in ws && ws[1] in ws; }
    var counts := Counts(Add(s.counters, {day, minute}, 1), ws);
    assert counts == [Count(s.counters, day) + 1, Count(s.counters, minute) + 1];
  }

  /** Refusing is not exact: with a daily limit of one and nobody holding a slot, a request is still
      refused while an earlier refusal waits for its rollback. */
  lemma RefusedWithNoHolder()
    ensures ValidRun(START, SampleRun())
    ensures
      var s := Run(START, SampleRun());
      3 in s.clients && s.clients[3].RollingBack? && forall c :: c in s.clients ==> !s.clients[c].Holding?
  {
    var es := SampleRun();
    var s1 := Step(START, es[0]);
    SampleReserve(START, 1);
    var s2 := Step(s1, es[1]);
    SampleReserve(s1, 2);
    var s3 := Step(s2, es[2]);
    var s4 := Step(s3, es[3]);
    SampleReserve(s3, 3);
    RunOfFour(es, s1, s2, s3, s4);
  }

  lemma RunOfFour(es: seq<Event>, s1: State, s2: State, s3: State, s4: State)
    requires |es| == 4
    requires Enabled(START, es[0]) && s1 == Step(START, es[0])
    requires Enabled(s1, es[1]) && s2 == Step(s1, es[1])
    requires Enabled(s2, es[2]) && s3 == Step(s2, es[2])
    requires Enabled(s3, es[3]) && s4 == Step(s3, es[3])
    ensures ValidRun(START, es) && Run(START, es) == s4
  {
    assert es[0..] == es && es[4..] == [];
    StepFirst(s3, es, 3, s4);
    StepFirst(s2, es, 2, s3);
    StepFirst(s1, es, 1, s2);
    StepFirst(START, es, 0, s1);
  }

  lemma StepFirst(s: State, es: seq<Event>, i: nat, t: State)
    requires i < |es| && Enabled(s, es[i]) && t == Step(s, es[i]) && ValidRun(t, es[i + 1..])
    ensures ValidRun(s, es[i..]) && Run(s, es[i..]) == Run(t, es[i + 1..])
  {
    assert es[i..][0] == es[i] && es[i..][1..] == es[i + 1..];
  }

  // ------------------------------------------------------------------ one request at a time

  datatype Backend = Redis | Memory

  datatype Op = ReserveOp(client: nat, call: Call) | ReleaseOp(client: nat)

  function RedisReserve(m: map<Key, int>, call: Call): (Verdict, map<Key, int>) {
    var raised := Add(m, Keys(call), 1);
    var verdict := Judge(Windows(call), Counts(raised, Windows(call)));
    (verdict, if verdict == Granted then raised else Add(raised, Keys(call), -1))
  }

  /** Run alone, the code's reservation is the interleaved client's steps taken back to back. */
  lemma ReserveAloneIsItsSteps(s: State, c: nat, call: Call)
    requires c !in s.clients
    ensures
      var t := Step(s, Reserve(c, call));
      if t.clients[c].Holding? then RedisReserve(s.counters, call) == (Granted, t.counters)
      else RedisReserve(s.counters, call).0 != Granted
           && RedisReserve(s.counters, call).1 == Step(t, Rollback(c)).counters
  {
  }

  function MemoryReserve(m: map<Key, int>, call: Call): (Verdict, map<Key, int>) {
    var ws := Windows(call);
    var verdict := Judge(ws, seq(|ws|, i requires 0 <= i < |ws| => Count(m, ws[i].key) + 1));
    (verdict, if verdict == Granted then Add(m, Keys(call), 1) else m)
  }

  /** A counter that would fall to zero is dropped from the map. */
  function MemoryRelease(m: map<Key, int>, keys: set<Key>): map<Key, int> {
    map k | k in m && !(k in keys && m[k] <= 1) :: if k in keys then m[k] - 1 else m[k]
  }

  datatype Path = Path(counters: map<Key, int>, held: map<nat, set<Key>>, verdicts: seq<Verdict>)

  predicate ValidOps(held: map<nat, set<Key>>, op: Op) {
    match op
    case ReserveOp(c, _) => c !in held
    case ReleaseOp(c) => c in held
  }

  function PerformOp(backend: Backend, p: Path, op: Op): Path
    requires ValidOps(p.held, op)
  {
    match op
    case ReserveOp(c, call) =>
      var (v, m) := if backend == Redis then RedisReserve(p.counters, call) else MemoryReserve(p.counters, call);
      Path(m, if v == Granted then p.held[c := Keys(call)] else p.held, p.verdicts + [v])
    case ReleaseOp(c) =>
      var m := if backend == Redis then Add(p.counters, p.held[c], -1) else MemoryRelease(p.counters, p.held[c]);
      Path(m, p.held - {c}, p.verdicts)
  }

  /** A history releases only slots that are held; a client that was refused may try again. */
  predicate ValidHistory(backend: Backend, p: Path, ops: seq<Op>)
    decreases |ops|
  {
    ops == [] || (ValidOps(p.held, ops[0]) && ValidHistory(backend, PerformOp(backend, p, ops[0]), ops[1..]))
  }

  function History(backend: Backend, p: Path, ops: seq<Op>): Path
    requires ValidHistory(backend, p, ops)
    decreases |ops|
  {
    if ops == [] then p else History(backend, PerformOp(backend, p, ops[0]), ops[1..])
  }

  const FRESH: Path := Path(map[], map[], [])

  ghost predicate Agree(redis: Path, memory: Path) {
    && redis.held == memory.held && redis.verdicts == memory.verdicts
    && (forall k :: Count(redis.counters, k) == Count(memory.counters, k))
    && (forall k :: k in memory.counters ==> memory.counters[k] >= 1)
    && Tallied(redis)
  }

  function HeldBy(held: map<nat, set<Key>>, k: Key): set<nat> { set c | c in held && k in held[c] }

  ghost predicate Tallied(p: Path) {
    forall k :: Count(p.counters, k) == |HeldBy(p.held, k)|
  }

  // ------------------------------------------------------------------ verdicts from the call's own fields

  /** One more slot would exceed the limit; a limit below one counts as one. */
  predicate Full(m: map<Key, int>, k: Key, limit: int) { Count(m, k) + 1 > Max(1, limit) }

  predicate DayFull(m: map<Key, int>, c: Call) { Full(m, Day(c.tenant, c.credential, c.period), c.dailyLimit) }

  predicate MinuteFull(m: map<Key, int>, c: Call) { Full(m, Minute(c.tenant, c.credential, c.now / 60), c.minuteLimit) }

  /** Sessions are limited only when the call names one and sets both limits. */
  predicate SessionFull(m: map<Key, int>, c: Call) {
    && c.scope != "" && c.sessionMinuteLimit != 0 && c.sessionBurstLimit != 0
    && (|| Full(m, SessionMinute(c.tenant, c.credential, c.scope, c.now / 60), c.sessionMinuteLimit)
        || Full(m, SessionBurst(c.tenant, c.credential, c.scope, c.now / 10), c.sessionBurstLimit))
  }

  lemma SessionWindows(c: Call)
    ensures
      var ws, limited := Windows(c), c.scope != "" && c.sessionMinuteLimit != 0 && c.sessionBurstLimit != 0;
      && ws[0] == Window(Day(c.tenant, c.credential, c.period), Max(1, c.dailyLimit))
      && ws[1] == Window(Minute(c.tenant, c.credential, c.now / 60), Max(1, c.minuteLimit))
      && |ws| == (if limited then 4 else 2)
      && (limited ==>
            && ws[2] == Window(SessionMinute(c.tenant, c.credential, c.scope, c.now / 60), Max(1, c.sessionMinuteLimit))
            && ws[3] == Window(SessionBurst(c.tenant, c.credential, c.scope, c.now / 10), Max(1, c.sessionBurstLimit)))
  {
  }

  /** The fallback's verdict: the day is looked at first, then the minute, then the session's two windows. */
  lemma VerdictFromFields(m: map<Key, int>, c: Call)
    ensures
      var v := MemoryReserve(m, c).0;
      && (v == DailyLimit <==> DayFull(m, c))
      && (v == MinuteLimit <==> !DayFull(m, c) && MinuteFull(m, c))
      && (v == SessionLimit <==> !DayFull(m, c) && !MinuteFull(m, c) && SessionFull(m, c))
      && (v == Granted <==> !DayFull(m, c) && !MinuteFull(m, c) && !SessionFull(m, c))
  {
    SessionWindows(c);
    var ws := Windows(c);
    var counts := seq(|ws|, i requires 0 <= i < |ws| => Count(m, ws[i].key) + 1);
    GrantedIffWithin(ws, counts);
    if SessionFull(m, c) {
      assert counts[2] > ws[2].limit || counts[3] > ws[3].limit;
    }
  }

  /** The same for Redis; the counters it leaves are one more in each of the call's windows, or as they were. */
  lemma RedisVerdictFromFields(m: map<Key, int>, c: Call)
    ensures
      var (v, after) := RedisReserve(m, c);
      && (v == DailyLimit <==> DayFull(m, c))
      && (v == MinuteLimit <==> !DayFull(m, c) && MinuteFull(m, c))
      && (v == SessionLimit <==> !DayFull(m, c) && !MinuteFull(m, c) && SessionFull(m, c))
      && (v == Granted <==> !DayFull(m, c) && !MinuteFull(m, c) && !SessionFull(m, c))
      && (v != Granted ==> forall k :: Count(after, k) == Count(m, k))
  {
    SameVerdict(m, m, c);
    VerdictFromFields(m, c);
  }

  /** Which counters a granted call raises. */
  lemma GrantRaisesItsCounters(m: map<Key, int>, c: Call, k: Key)
    ensures
      var session := c.scope != "" && c.sessionMinuteLimit != 0 && c.sessionBurstLimit != 0;
      var counted := || k == Day(c.tenant, c.credential, c.period) || k == Minute(c.tenant, c.credential, c.now / 60)
                     || (session && (|| k == SessionMinute(c.tenant, c.credential, c.scope, c.now / 60)
                                     || k == SessionBurst(c.tenant, c.credential, c.scope, c.now / 10)));
      && (k in Keys(c) <==> counted)
      && (MemoryReserve(m, c).0 == Granted ==> Count(MemoryReserve(m, c).1, k) == Count(m, k) + if counted then 1 else 0)
      && (RedisReserve(m, c).0 == Granted ==> Count(RedisReserve(m, c).1, k) == Count(m, k) + if counted then 1 else 0)
  {
    SessionWindows(c);
    var ws := Windows(c);
    assert forall i :: 0 <= i < |ws| ==> ws[i] in ws;
    assert k in Keys(c) <==> exists i :: 0 <= i < |ws| && ws[i].key == k;
  }

  // The session quota over runs.

  function HighestLimit(es: seq<Event>): (b: nat)
    ensures forall e :: e in es && e.Reserve? ==> forall w :: w in Windows(e.call) ==> w.limit <= b
    decreases |es|
  {
    if es == [] then 0
    else
      assert es == [es[0]] + es[1..];
      var rest := HighestLimit(es[1..]);
      if es[0].Reserve? then
        var c := es[0].call;
        SessionWindows(c);
        Max(Max(Max(1, c.dailyLimit), Max(1, c.minuteLimit)),
            Max(Max(Max(1, c.sessionMinuteLimit), Max(1, c.sessionBurstLimit)), rest))
      else rest
  }

  /** A call that counts itself in this session. */
  predicate InSession(c: Call, tenant: int, credential: int, scope: string) {
    && c.tenant == tenant && c.credential == credential && c.scope == scope
    && c.sessionMinuteLimit != 0 && c.sessionBurstLimit != 0
  }

  function TwoBounds(k: Key, first: Key, limit: nat, second: Key, other: nat, high: nat): nat {
    if k == first then limit else if k == second then other else high
  }

  lemma SessionWithin(c: Call, high: nat, m: Key, perMinute: nat, b: Key, perBurst: nat)
    requires m.SessionMinute? && b.SessionBurst? && b == SessionBurst(m.tenant, m.credential, m.scope, b.burst) && m.scope != ""
    requires InSession(c, m.tenant, m.credential, m.scope) ==>
               Max(1, c.sessionMinuteLimit) <= perMinute && Max(1, c.sessionBurstLimit) <= perBurst
    requires forall w :: w in Windows(c) ==> w.limit <= high
    ensures forall w :: w in Windows(c) ==> w.limit <= TwoBounds(w.key, m, perMinute, b, perBurst, high)
  {
    SessionWindows(c);
  }

  /** In every interleaving a session holds at most `perMinute` slots in a minute and `perBurst` in ten seconds, when
      no call of that session presents higher limits. */
  lemma SessionQuotaIsNeverExceeded(es: seq<Event>, tenant: int, credential: int, scope: string, perMinute: nat, perBurst: nat,
                                    minute: int, burst: int)
    requires ValidRun(START, es) && scope != ""
    requires forall e :: e in es && e.Reserve? && InSession(e.call, tenant, credential, scope) ==>
               Max(1, e.call.sessionMinuteLimit) <= perMinute && Max(1, e.call.sessionBurstLimit) <= perBurst
    ensures |Holders(Run(START, es).clients, SessionMinute(tenant, credential, scope, minute))| <= perMinute
    ensures |Holders(Run(START, es).clients, SessionBurst(tenant, credential, scope, burst))| <= perBurst
  {
    var high := HighestLimit(es);
    var m, b := SessionMinute(tenant, credential, scope, minute), SessionBurst(tenant, credential, scope, burst);
    var bound: Key -> nat := k => TwoBounds(k, m, perMinute, b, perBurst, high);
    forall e | e in es ensures WithinBound(e, bound) {
      if e.Reserve? {
        SessionWithin(e.call, high, m, perMinute, b, perBurst);
      }
    }
    QuotaIsNeverExceeded(es, bound, m);
    QuotaIsNeverExceeded(es, bound, b);
  }

  lemma CredentialWithin(c: Call, high: nat, d: Key, perDay: nat, m: Key, perMinute: nat)
    requires d.Day? && m.Minute? && m == Minute(d.tenant, d.credential, m.minute)
    requires c.tenant == d.tenant && c.credential == d.credential ==>
               Max(1, c.dailyLimit) <= perDay && Max(1, c.minuteLimit) <= perMinute
    requires forall w :: w in Windows(c) ==> w.limit <= high
    ensures forall w :: w in Windows(c) ==> w.limit <= TwoBounds(w.key, d, perDay, m, perMinute, high)
  {
    SessionWindows(c);
  }

  /** Likewise a credential in a day and in a minute. */
  lemma CredentialQuotaIsNeverExceeded(es: seq<Event>, tenant: int, credential: int, perDay: nat, perMinute: nat,
                                       period: string, minute: int)
    requires ValidRun(START, es)
    requires forall e :: e in es && e.Reserve? && e.call.tenant == tenant && e.call.credential == credential ==>
               Max(1, e.call.dailyLimit) <= perDay && Max(1, e.call.minuteLimit) <= perMinute
    ensures |Holders(Run(START, es).clients, Day(tenant, credential, period))| <= perDay
    ensures |Holders(Run(START, es).clients, Minute(tenant, credential, minute))| <= perMinute
  {
    var high := HighestLimit(es);
    var d, m := Day(tenant, credential, period), Minute(tenant, credential, minute);
    var bound: Key -> nat := k => TwoBounds(k, d, perDay, m, perMinute, high);
    forall e | e in es ensures WithinBound(e, bound) {
      if e.Reserve? {
        CredentialWithin(e.call, high, d, perDay, m, perMinute);
      }
    }
    QuotaIsNeverExceeded(es, bound, d);
    QuotaIsNeverExceeded(es, bound, m);
  }

  lemma HeldByChange(held: map<nat, set<Key>>, c: nat, keys: set<Key>, k: Key)
    requires c !in held
    ensures |HeldBy(held[c := keys], k)| == |HeldBy(held, k)| + if k in keys then 1 else 0
  {
    assert HeldBy(held[c := keys], k) == if k in keys then HeldBy(held, k) + {c} else HeldBy(held, k);
  }

  lemma SameVerdict(r: map<Key, int>, m: map<Key, int>, call: Call)
    requires forall k :: Count(r, k) == Count(m, k)
    ensures RedisReserve(r, call).0 == MemoryReserve(m, call).0
    ensures RedisReserve(r, call).0 != Granted ==>
              MemoryReserve(m, call).1 == m && forall k :: Count(RedisReserve(r, call).1, k) == Count(r, k)
  {
    RaisedCounts(r, m, call);
    forall k: Key
      ensures Count(Add(Add(r, Keys(call), 1), Keys(call), -1), k) == Count(r, k)
    {
    }
  }

  lemma RaisedCounts(r: map<Key, int>, m: map<Key, int>, call: Call)
    requires forall k :: Count(r, k) == Count(m, k)
    ensures Counts(Add(r, Keys(call), 1), Windows(call))
         == seq(|Windows(call)|, i requires 0 <= i < |Windows(call)| => Count(m, Windows(call)[i].key) + 1)
  {
    var ws := Windows(call);
    DistinctWindows(call);
    forall i | 0 <= i < |ws|
      ensures Count(Add(r, Keys(call), 1), ws[i].key) == Count(m, ws[i].key) + 1
    {
      assert ws[i] in ws;
    }
  }

  lemma OpKeepsAgreement(redis: Path, memory: Path, op: Op)
    requires Agree(redis, memory) && ValidOps(redis.held, op)
    ensures Agree(PerformOp(Redis, redis, op), PerformOp(Memory, memory, op))
  {
    var r, m := PerformOp(Redis, redis, op), PerformOp(Memory, memory, op);
    match op
    case ReserveOp(c, call) =>
      SameVerdict(redis.counters, memory.counters, call);
      forall k: Key
        ensures Count(r.counters, k) == |HeldBy(r.held, k)| && Count(r.counters, k) == Count(m.counters, k)
      {
        HeldByChange(redis.held, c, Keys(call), k);
      }
    case ReleaseOp(c) =>
      forall k: Key
        ensures Count(r.counters, k) == |HeldBy(r.held, k)| && Count(r.counters, k) == Count(m.counters, k)
      {
        assert redis.held == (redis.held - {c})[c := redis.held[c]];
        HeldByChange(redis.held - {c}, c, redis.held[c], k);
      }
  }

  lemma {:induction false} PathsAgree(redis: Path, memory: Path, ops: seq<Op>)
    requires Agree(redis, memory) && ValidHistory(Redis, redis, ops)
    ensures ValidHistory(Memory, memory, ops)
    ensures Agree(History(Redis, redis, ops), History(Memory, memory, ops))
    decreases |ops|
  {
    if ops != [] {
      OpKeepsAgreement(redis, memory, ops[0]);
      PathsAgree(PerformOp(Redis, redis, ops[0]), PerformOp(Memory, memory, ops[0]), ops[1..]);
    }
  }

  /** One request at a time, Redis and the fallback give the same verdicts, including which limit is
      named, and the same counters: the number of slots held, so a refusal leaves every counter as it was. */
  lemma SequentialPathsAgree(ops: seq<Op>)
    requires ValidHistory(Redis, FRESH, ops)
    ensures ValidHistory(Memory, FRESH, ops)
    ensures
      var redis, memory := History(Redis, FRESH, ops), History(Memory, FRESH, ops);
      && redis.verdicts == memory.verdicts && redis.held == memory.held
      && (forall k :: Count(redis.counters, k) == Count(memory.counters, k) == |HeldBy(memory.held, k)|)
      && (forall k :: k in memory.counters ==> memory.counters[k] >= 1)
  {
    assert forall k :: HeldBy(map[], k) == {};
    PathsAgree(FRESH, FRESH, ops);
  }

  /** Releasing what was just reserved restores the fallback map exactly, precisely when none of the
      call's counters was stored as zero or less. */
  lemma ReleaseUndoesReserve(m: map<Key, int>, call: Call)
    requires MemoryReserve(m, call).0 == Granted
    ensures MemoryRelease(MemoryReserve(m, call).1, Keys(call)) == m <==>
            forall k :: k in Keys(call) && k in m ==> m[k] >= 1
  {
    var back := MemoryRelease(MemoryReserve(m, call).1, Keys(call));
    if forall k :: k in Keys(call) && k in m ==> m[k] >= 1 {
      assert forall k :: k in back <==> k in m;
    } else {
      var k :| k in Keys(call) && k in m && m[k] < 1;
      assert k !in back;
    }
  }

  // ------------------------------------------------------------------ the code

  datatype Connection = NoClient | Broken | Working

  datatype Reservation = Reservation(backend: Backend, keys: seq<Key>)

  function ToSet(keys: seq<Key>): set<Key> { set k | k in keys }

  predicate Distinct(keys: seq<Key>) { forall i, j :: 0 <= i < j < |keys| ==> keys[i] != keys[j] }

  lemma WindowKeys(c: Call)
    ensures Distinct(KeysOf(Windows(c))) && ToSet(KeysOf(Windows(c))) == Keys(c)
    ensures 2 <= |KeysOf(Windows(c))| <= 4
  {
    DistinctWindows(c);
    forall k | k in Keys(c)
      ensures k in KeysOf(Windows(c))
    {
      var i :| 0 <= i < |Windows(c)| && Windows(c)[i].key == k;
      assert KeysOf(Windows(c))[i] == k;
    }
  }

  lemma AddKey(m: map<Key, int>, keys: set<Key>, k: Key, delta: int)
    requires k !in keys
    ensures Count(Add(m, keys, delta), k) == Count(m, k)
    ensures Add(m, keys, delta)[k := Count(m, k) + delta] == Add(m, keys + {k}, delta)
  {
    assert Add(m, keys + {k}, delta).Keys == Add(m, keys, delta).Keys + {k};
  }

  lemma AddOneMore(m: map<Key, int>, keys: seq<Key>, i: nat, delta: int)
    requires Distinct(keys) && i < |keys|
    ensures Count(Add(m, ToSet(keys[..i]), delta), keys[i]) == Count(m, keys[i])
    ensures Add(m, ToSet(keys[..i]), delta)[keys[i] := Count(m, keys[i]) + delta] == Add(m, ToSet(keys[..i + 1]), delta)
  {
    assert ToSet(keys[..i + 1]) == ToSet(keys[..i]) + {keys[i]};
    assert keys[i] !in ToSet(keys[..i]);
    AddKey(m, ToSet(keys[..i]), keys[i], delta);
  }

  lemma ReleaseOneMore(m: map<Key, int>, keys: seq<Key>, i: nat)
    requires Distinct(keys) && i < |keys|
    ensures
      var before := MemoryRelease(m, ToSet(keys[..i]));
      var current := Count(before, keys[i]);
      (if current <= 1 then before - {keys[i]} else before[keys[i] := current - 1])
      == MemoryRelease(m, ToSet(keys[..i + 1]))
  {
    assert ToSet(keys[..i + 1]) == ToSet(keys[..i]) + {keys[i]};
    assert keys[i] !in ToSet(keys[..i]);
  }

  class QuotaStore {
    var redis: map<Key, int>
    var fallback: map<Key, int>

    constructor ()
      ensures redis == map[] && fallback == map[]
    {
      redis, fallback := map[], map[];
    }

    /** One pipeline of INCR (delta 1) or DECR (delta -1) commands, executed as one step. */
    method Pipeline(keys: seq<Key>, delta: int) returns (results: seq<int>)
      requires Distinct(keys)
      modifies this`redis
      ensures redis == Add(old(redis), ToSet(keys), delta)
      ensures |results| == |keys| && forall i :: 0 <= i < |keys| ==> results[i] == Count(old(redis), keys[i]) + delta
    {
      results := [];
      for i := 0 to |keys|
        invariant redis == Add(old(redis), ToSet(keys[..i]), delta)
        invariant |results| == i && forall j :: 0 <= j < i ==> results[j] == Count(old(redis), keys[j]) + delta
      {
        AddOneMore(old(redis), keys, i, delta);
        var value := Count(redis, keys[i]) + delta;
        redis := redis[keys[i] := value];
        results := results + [value];
      }
      assert keys[..|keys|] == keys;
    }

    method ReserveInRedis(call: Call) returns (verdict: Verdict, reservation: Option<Reservation>)
      modifies this`redis
      ensures (verdict, redis) == RedisReserve(old(redis), call)
      ensures reservation == if verdict == Granted then Some(Reservation(Redis, KeysOf(Windows(call)))) else None
    {
      WindowKeys(call);
      var ws := Windows(call);
      var keys := KeysOf(ws);
      var results := Pipeline(keys, 1);
      assert results == Counts(redis, ws);
      verdict := Judge(ws, results);
      if verdict != Granted {
        var _ := Pipeline(keys, -1);
        return verdict, None;
      }
      reservation := Some(Reservation(Redis, keys));
    }

    method StoreCounts(keys: seq<Key>, counts: seq<int>)
      requires Distinct(keys) && |counts| == |keys|
      requires forall i :: 0 <= i < |keys| ==> counts[i] == Count(fallback, keys[i]) + 1
      modifies this`fallback
      ensures fallback == Add(old(fallback), ToSet(keys), 1)
    {
      for i := 0 to |keys|
        invariant fallback == Add(old(fallback), ToSet(keys[..i]), 1)
      {
        AddOneMore(old(fallback), keys, i, 1);
        fallback := fallback[keys[i] := counts[i]];
      }
      assert keys[..|keys|] == keys;
    }

    method ReserveInMemory(call: Call) returns (verdict: Verdict, reservation: Option<Reservation>)
      modifies this`fallback
      ensures (verdict, fallback) == MemoryReserve(old(fallback), call)
      ensures reservation == if verdict == Granted then Some(Reservation(Memory, KeysOf(Windows(call)))) else None
    {
      WindowKeys(call);
      var ws := Windows(call);
      var keys := KeysOf(ws);
      var stored := fallback;
      var counts := seq(|ws|, i requires 0 <= i < |ws| => Count(stored, ws[i].key) + 1);
      verdict := Judge(ws, counts);
      if verdict != Granted {
        return verdict, None;
      }
      StoreCounts(keys, counts);
      reservation := Some(Reservation(Memory, keys));
    }

    /** A broken connection is noticed at the first pipeline, which then has no effect. */
    method ReserveUsageSlot(call: Call, connection: Connection, failClosed: bool, deployed: bool)
      returns (verdict: Verdict, reservation: Option<Reservation>)
      modifies this
      ensures connection != Working && failClosed && deployed ==>
                verdict == Unavailable && reservation == None && redis == old(redis) && fallback == old(fallback)
      ensures connection == Working ==> (verdict, redis) == RedisReserve(old(redis), call) && fallback == old(fallback)
      ensures connection != Working && !(failClosed && deployed) ==>
                (verdict, fallback) == MemoryReserve(old(fallback), call) && redis == old(redis)
      ensures reservation.Some? <==> verdict == Granted
      ensures reservation.Some? ==>
                reservation.value == Reservation(if connection == Working then Redis else Memory, KeysOf(Windows(call)))
    {
      if connection == NoClient && failClosed && deployed {
        return Unavailable, None;
      }
      if connection != NoClient {
        if connection == Working {
          verdict, reservation := ReserveInRedis(call);
          return;
        }
        if failClosed && deployed {
          return Unavailable, None;
        }
      }
      verdict, reservation := ReserveInMemory(call);
    }

    method ReleaseUsageSlot(reservation: Option<Reservation>, redisUp: bool)
      requires reservation.Some? ==> Distinct(reservation.value.keys)
      modifies this
      ensures reservation.None? ==> redis == old(redis) && fallback == old(fallback)
      ensures reservation.Some? && reservation.value.backend == Memory ==>
                redis == old(redis) && fallback == MemoryRelease(old(fallback), ToSet(reservation.value.keys))
      ensures reservation.Some? && reservation.value.backend == Redis ==>
                && fallback == old(fallback)
                && redis == if redisUp then Add(old(redis), ToSet(reservation.value.keys), -1) else old(redis)
    {
      if reservation.None? {
        return;
      }
      var keys := reservation.value.keys;
      if reservation.value.backend == Redis {
        if redisUp {
          var _ := Pipeline(keys, -1);
        }
        return;
      }
      for i := 0 to |keys|
        invariant redis == old(redis) && fallback == MemoryRelease(old(fallback), ToSet(keys[..i]))
      {
        ReleaseOneMore(old(fallback), keys, i);
        var current := if keys[i] in fallback then fallback[keys[i]] else 0;
        if current <= 1 {
          fallback := fallback - {keys[i]};
        } else {
          fallback := fallback[keys[i] := current - 1];
        }
      }
      assert keys[..|keys|] == keys;
    }
  }
}
