/** The broker session's lock: request threads copy the key, register, take the
    operation mutex, check the generation, work, check again, answer and leave,
    while any number of `Lock` calls zero the key and wait for them. */
module SessionLock {
  import opened Lists

  const UINT64_RANGE := 0x1_0000_0000_0000_0000

  type Byte = x: int | 0 <= x < 256

  /** The fields guarded by the session mutex. A request context is the number
      of the session context it was derived from. */
  datatype Guarded = Guarded(key: seq<Byte>, locked: bool, generation: nat, context: nat, cancelled: set<nat>,
                             active: nat)

  function Zeroed(key: seq<Byte>): (z: seq<Byte>)
    ensures |z| == |key| && forall i :: 0 <= i < |z| ==> z[i] == 0
  {
    seq(|key|, _ => 0)
  }

  /** What `Lock` does before it waits. */
  function Invalidated(g: Guarded): Guarded {
    g.(key := Zeroed(g.key), locked := true, generation := (g.generation + 1) % UINT64_RANGE,
       context := g.context + 1, cancelled := g.cancelled + {g.context})
  }

  function Entered(g: Guarded): Guarded {
    if g.locked then g else g.(active := g.active + 1)
  }

  function Left(g: Guarded): Guarded {
    if g.active > 0 then g.(active := g.active - 1) else g
  }

  function KeyOf(g: Guarded): Option<seq<Byte>> {
    if g.locked then None else Some(g.key)
  }

  predicate ValidFor(g: Guarded, generation: nat) {
    !g.locked && g.generation == generation
  }

  /** The session object, one critical section per method. */
  class Session {
    const vaultKey: array<Byte>
    var locked: bool
    var generation: nat
    var sessionCtx: nat
    var cancelled: set<nat>
    var activeRequests: nat

    function Value(): Guarded
      reads this, vaultKey
    {
      Guarded(vaultKey[..], locked, generation, sessionCtx, cancelled, activeRequests)
    }

    constructor (key: seq<Byte>)
      ensures Value() == Guarded(key, false, 0, 0, {}, 0) && fresh(vaultKey)
    {
      vaultKey := new Byte[|key|](i requires 0 <= i < |key| => key[i]);
      locked, generation, sessionCtx, cancelled, activeRequests := false, 0, 0, {}, 0;
      new;
      assert vaultKey[..] == key;
    }

    /** The critical section of `Lock`; the wait that follows is a transition. */
    method Invalidate()
      modifies this, vaultKey
      ensures Value() == Invalidated(old(Value()))
    {
      for i := 0 to vaultKey.Length
        invariant forall j :: 0 <= j < i ==> vaultKey[j] == 0
        invariant locked == old(locked) && generation == old(generation) && sessionCtx == old(sessionCtx)
        invariant cancelled == old(cancelled) && activeRequests == old(activeRequests)
      {
        vaultKey[i] := 0;
      }
      locked := true;
      generation := (generation + 1) % UINT64_RANGE;
      cancelled := cancelled + {sessionCtx};
      sessionCtx := sessionCtx + 1;
      assert vaultKey[..] == Zeroed(old(vaultKey[..]));
    }

    method Key() returns (key: Option<seq<Byte>>)
      ensures key == KeyOf(Value())
    {
      if locked {
        return None;
      }
      return Some(vaultKey[..]);
    }

    method BeginRequest() returns (r: Option<(nat, nat)>)
      modifies this`activeRequests
      ensures Value() == Entered(old(Value()))
      ensures r == if locked then None else Some((sessionCtx, generation))
    {
      if locked {
        return None;
      }
      activeRequests := activeRequests + 1;
      return Some((sessionCtx, generation));
    }

    method EndRequest()
      modifies this`activeRequests
      ensures Value() == Left(old(Value()))
    {
      if activeRequests > 0 {
        activeRequests := activeRequests - 1;
      }
    }

    method GenerationValid(gen: nat) returns (ok: bool)
      ensures ok <==> ValidFor(Value(), gen)
    {
      return !locked && generation == gen;
    }
  }

  // ---------------------------------------------------------------- threads

  datatype Kind = Resolving | Rotating

  /** Where a request thread is. `Holding` to `Leaving` own the operation mutex;
      `Registered` to `Released` are counted by the session. */
  datatype PC =
    | Arrived | KeyCopied
    | Registered
    | Holding | ContextLive | Cleared | Worked | ContextLiveAgain | Releasing | Leaving
    | Released
    | Done

  function Rank(pc: PC): nat {
    match pc
    case Arrived => 11
    case KeyCopied => 10
    case Registered => 9
    case Holding => 8
    case ContextLive => 7
    case Cleared => 6
    case Worked => 5
    case ContextLiveAgain => 4
    case Releasing => 3
    case Leaving => 2
    case Released => 1
    case Done => 0
  }

  predicate InOperation(pc: PC) { 2 <= Rank(pc) <= 8 }

  predicate Active(pc: PC) { 1 <= Rank(pc) <= 9 }

  datatype Request = Request(kind: Kind, pc: PC, key: Option<seq<Byte>>, context: nat, generation: nat)

  /** A `Lock` call: about to lock, about to look at the count, waiting on the
      condition variable, or returned. */
  datatype Locker = Calling | Looking | Asleep | Returned

  function LockerRank(l: Locker): nat {
    match l
    case Calling => 3
    case Looking => 2
    case Asleep => 1
    case Returned => 0
  }

  datatype State = State(session: Guarded, holder: Option<nat>, requests: seq<Request>, lockers: seq<Locker>)

  datatype Event =
    | ReadKey(t: nat) | Begin(t: nat) | Acquire(t: nat)
    | CheckContext(t: nat) | CheckGeneration(t: nat)
    | Work(t: nat, ok: bool) | Respond(t: nat) | ReleaseMutex(t: nat) | End(t: nat)
    | Invalidate(l: nat) | Look(l: nat)

  predicate ByRequest(e: Event) { !e.Invalidate? && !e.Look? }

  function At(s: State, t: nat, r: Request): State
    requires t < |s.requests|
  {
    s.(requests := s.requests[t := r])
  }

  /** The condition variable's broadcast. */
  function Awake(ls: seq<Locker>): (r: seq<Locker>)
    ensures |r| == |ls| && forall i :: 0 <= i < |ls| ==> r[i] == if ls[i].Asleep? then Looking else ls[i]
  {
    seq(|ls|, i requires 0 <= i < |ls| => if ls[i].Asleep? then Looking else ls[i])
  }

  /** One atomic step of thread `t`, or None when it cannot take it. */
  function RequestStep(s: State, e: Event): Option<State>
    requires ByRequest(e)
  {
    if e.t >= |s.requests| then None
    else
      var r := s.requests[e.t];
      match e
      case ReadKey(t) =>
        if r.pc != Arrived then None
        else if KeyOf(s.session).None? then Some(At(s, t, r.(pc := Done)))
        else Some(At(s, t, r.(pc := KeyCopied, key := KeyOf(s.session))))
      case Begin(t) =>
        if r.pc != KeyCopied then None
        else if s.session.locked then Some(At(s, t, r.(pc := Done)))
        else Some(At(s, t, r.(pc := Registered, context := s.session.context, generation := s.session.generation))
                  .(session := Entered(s.session)))
      case Acquire(t) =>
        if r.pc != Registered || s.holder.Some? then None
        else Some(At(s, t, r.(pc := Holding)).(holder := Some(t)))
      case CheckContext(t) =>
        var live := r.context !in s.session.cancelled;
        if r.pc == Holding then Some(At(s, t, r.(pc := if live then ContextLive else Leaving)))
        else if r.pc == Worked then Some(At(s, t, r.(pc := if live then ContextLiveAgain else Leaving)))
        else None
      case CheckGeneration(t) =>
        var valid := ValidFor(s.session, r.generation);
        if r.pc == ContextLive then Some(At(s, t, r.(pc := if valid then Cleared else Leaving)))
        else if r.pc == ContextLiveAgain then Some(At(s, t, r.(pc := if valid then Releasing else Leaving)))
        else None
      case Work(t, ok) =>
        if r.pc != Cleared then None else Some(At(s, t, r.(pc := if ok then Worked else Leaving)))
      case Respond(t) =>
        if r.pc != Releasing then None else Some(At(s, t, r.(pc := Leaving)))
      case ReleaseMutex(t) =>
        if r.pc != Leaving then None else Some(At(s, t, r.(pc := Released)).(holder := None))
      case End(t) =>
        if r.pc != Released then None
        else Some(At(s, t, r.(pc := Done)).(session := Left(s.session), lockers := Awake(s.lockers)))
  }

  function Next(s: State, e: Event): Option<State> {
    match e
    case Invalidate(l) =>
      if l >= |s.lockers| || s.lockers[l] != Calling then None
      else Some(s.(session := Invalidated(s.session), lockers := s.lockers[l := Looking]))
    case Look(l) =>
      if l >= |s.lockers| || s.lockers[l] != Looking then None
      else Some(s.(lockers := s.lockers[l := if s.session.active > 0 then Asleep else Returned]))
    case _ => RequestStep(s, e)
  }

  ghost predicate IsRun(ss: seq<State>, es: seq<Event>, key: seq<Byte>) {
    && |ss| == |es| + 1 && Initial(ss[0], key)
    && forall i {:trigger es[i]} :: 0 <= i < |es| ==> Next(ss[i], es[i]) == Some(ss[i + 1])
  }

  ghost predicate Initial(s: State, key: seq<Byte>) {
    && s.session == Guarded(key, false, 0, 0, {}, 0) && s.holder.None?
    && (forall r <- s.requests :: r.pc == Arrived) && (forall l <- s.lockers :: l == Calling)
  }

  // ---------------------------------------------------------------- counting

  function ActiveCount(rs: seq<Request>): nat {
    if rs == [] then 0 else ActiveCount(rs[..|rs| - 1]) + if Active(rs[|rs| - 1].pc) then 1 else 0
  }

  lemma {:induction false} CountAfter(rs: seq<Request>, t: nat, r: Request)
    requires t < |rs|
    ensures ActiveCount(rs[t := r])
            == ActiveCount(rs) - (if Active(rs[t].pc) then 1 else 0) + if Active(r.pc) then 1 else 0
  {
    var front := rs[..|rs| - 1];
    if t < |front| {
      CountAfter(front, t, r);
      assert rs[t := r][..|rs| - 1] == front[t := r];
    } else {
      assert rs[t := r][..|rs| - 1] == front;
    }
  }

  lemma {:induction false} CountPositive(rs: seq<Request>, t: nat)
    requires t < |rs| && Active(rs[t].pc)
    ensures ActiveCount(rs) > 0
  {
    if t < |rs| - 1 {
      CountPositive(rs[..|rs| - 1], t);
    }
  }

  lemma {:induction false} SomeActive(rs: seq<Request>) returns (t: nat)
    requires ActiveCount(rs) > 0
    ensures t < |rs| && Active(rs[t].pc)
  {
    if Active(rs[|rs| - 1].pc) {
      t := |rs| - 1;
    } else {
      t := SomeActive(rs[..|rs| - 1]);
    }
  }

  lemma {:induction false} NoneActive(rs: seq<Request>)
    requires forall r <- rs :: !Active(r.pc)
    ensures ActiveCount(rs) == 0
  {
    if rs != [] {
      assert rs[|rs| - 1] in rs;
      NoneActive(rs[..|rs| - 1]);
    }
  }

  // ---------------------------------------------------------------- the invariant

  predicate MutexHeldRight(s: State) {
    && (s.holder.Some? ==> s.holder.value < |s.requests| && InOperation(s.requests[s.holder.value].pc))
    && forall t :: 0 <= t < |s.requests| && InOperation(s.requests[t].pc) ==> s.holder == Some(t)
  }

  /** What a thread carries: the real key, and the context and generation that
      were current when it registered. */
  predicate Carries(r: Request, g: Guarded, key: seq<Byte>) {
    && (r.pc == KeyCopied || Active(r.pc) ==> r.key == Some(key))
    && (Active(r.pc) ==> if g.locked then r.context in g.cancelled
                         else r.context == g.context && r.generation == g.generation)
  }

  predicate LockersRight(s: State) {
    forall l :: 0 <= l < |s.lockers| ==>
      && (s.lockers[l] != Calling ==> s.session.locked)
      && (s.lockers[l] == Asleep ==> s.session.active > 0)
      && (s.lockers[l] == Returned ==> s.session.active == 0)
  }

  predicate KeyRight(g: Guarded, key: seq<Byte>) {
    && g.key == (if g.locked then Zeroed(key) else key)
    && (!g.locked ==> g.context !in g.cancelled) && g.generation < UINT64_RANGE
  }

  ghost predicate Inv(s: State, key: seq<Byte>) {
    && s.session.active == ActiveCount(s.requests)
    && MutexHeldRight(s) && LockersRight(s) && KeyRight(s.session, key)
    && forall t :: 0 <= t < |s.requests| ==> Carries(s.requests[t], s.session, key)
  }

  lemma InitialInv(s: State, key: seq<Byte>)
    requires Initial(s, key)
    ensures Inv(s, key)
  {
    NoneActive(s.requests);
    assert forall t :: 0 <= t < |s.requests| ==> s.requests[t] in s.requests;
    assert forall l :: 0 <= l < |s.lockers| ==> s.lockers[l] in s.lockers;
  }

  /** The count moves with the thread's own registration. */
  lemma RequestMovesCount(s: State, e: Event)
    requires ByRequest(e) && RequestStep(s, e).Some?
    requires e.t < |s.requests| && Active(s.requests[e.t].pc) ==> s.session.active > 0
    ensures var s' := RequestStep(s, e).value;
            && e.t < |s.requests| && |s'.requests| == |s.requests|
            && s'.requests == s.requests[e.t := s'.requests[e.t]]
            && s'.session == s.session.(active := s'.session.active)
            && s'.session.active == s.session.active - (if Active(s.requests[e.t].pc) then 1 else 0)
                                    + (if Active(s'.requests[e.t].pc) then 1 else 0)
            && (s'.lockers == s.lockers || s'.lockers == Awake(s.lockers))
            && (s'.session.active < s.session.active ==> s'.lockers == Awake(s.lockers))
            && (s.session.locked ==> s'.session.active <= s.session.active)
  {
  }

  lemma RequestKeepsCount(s: State, e: Event, key: seq<Byte>)
    requires Inv(s, key) && ByRequest(e) && RequestStep(s, e).Some?
    ensures var s' := RequestStep(s, e).value;
            s'.session.active == ActiveCount(s'.requests) && LockersRight(s') && KeyRight(s'.session, key)
  {
    if e.t < |s.requests| && Active(s.requests[e.t].pc) {
      CountPositive(s.requests, e.t);
    }
    RequestMovesCount(s, e);
    CountAfter(s.requests, e.t, RequestStep(s, e).value.requests[e.t]);
    hide MutexHeldRight, RequestStep, ActiveCount, Carries, Active;
  }

  lemma RequestKeepsMutex(s: State, e: Event)
    requires MutexHeldRight(s) && ByRequest(e) && RequestStep(s, e).Some?
    ensures MutexHeldRight(RequestStep(s, e).value)
  {
    hide Invalidated, Entered, Left, Awake;
  }

  lemma RequestKeepsCarried(s: State, e: Event, key: seq<Byte>, t: nat)
    requires KeyRight(s.session, key) && ByRequest(e) && RequestStep(s, e).Some? && t < |s.requests|
    requires Carries(s.requests[t], s.session, key)
    ensures Carries(RequestStep(s, e).value.requests[t], RequestStep(s, e).value.session, key)
  {
  }

  lemma RequestKeepsInv(s: State, e: Event, key: seq<Byte>)
    requires Inv(s, key) && ByRequest(e) && RequestStep(s, e).Some?
    ensures Inv(RequestStep(s, e).value, key)
  {
    RequestKeepsCount(s, e, key);
    RequestKeepsMutex(s, e);
    forall t | 0 <= t < |s.requests|
      ensures Carries(RequestStep(s, e).value.requests[t], RequestStep(s, e).value.session, key)
    {
      RequestKeepsCarried(s, e, key, t);
    }
    RequestKeepsThreads(s, e);
    hide RequestStep, MutexHeldRight, LockersRight, KeyRight, Carries, ActiveCount;
  }

  lemma RequestKeepsThreads(s: State, e: Event)
    requires ByRequest(e) && RequestStep(s, e).Some?
    ensures |RequestStep(s, e).value.requests| == |s.requests|
  {
  }

  lemma LockerKeepsInv(s: State, e: Event, key: seq<Byte>)
    requires Inv(s, key) && !ByRequest(e) && Next(s, e).Some?
    ensures Inv(Next(s, e).value, key)
  {
  }

  lemma {:induction false} InvAlways(ss: seq<State>, es: seq<Event>, key: seq<Byte>, k: nat)
    requires IsRun(ss, es, key) && k < |ss|
    ensures Inv(ss[k], key)
  {
    if k == 0 {
      InitialInv(ss[0], key);
    } else {
      InvAlways(ss, es, key, k - 1);
      assert Next(ss[k - 1], es[k - 1]) == Some(ss[k - 1 + 1]);
      if ByRequest(es[k - 1]) {
        RequestKeepsInv(ss[k - 1], es[k - 1], key);
      } else {
        LockerKeepsInv(ss[k - 1], es[k - 1], key);
      }
    }
  }

  /** The count is exactly the number of threads between begin and end, and a
      registered thread works with the key the session was opened with. */
  lemma CountIsExact(ss: seq<State>, es: seq<Event>, key: seq<Byte>, k: nat)
    requires IsRun(ss, es, key) && k < |ss|
    ensures ss[k].session.active == ActiveCount(ss[k].requests)
    ensures forall r <- ss[k].requests :: Active(r.pc) ==> r.key == Some(key)
  {
    InvAlways(ss, es, key, k);
  }

  // ---------------------------------------------------------------- the barrier

  /** A credential or success response, or a rotation reaching the vault. */
  predicate TakesEffect(s: State, e: Event) {
    || e.Respond?
    || (e.Work? && e.ok && e.t < |s.requests| && s.requests[e.t].kind == Rotating)
  }

  predicate LockReturns(s: State, e: Event) {
    e.Look? && e.l < |s.lockers| && s.lockers[e.l] == Looking && s.session.active == 0
  }

  lemma {:induction false} StaysLocked(ss: seq<State>, es: seq<Event>, key: seq<Byte>, i: nat, j: nat)
    requires IsRun(ss, es, key) && i <= j < |ss| && ss[i].session.locked
    ensures ss[j].session.locked && ss[j].session.active <= ss[i].session.active
  {
    if i < j {
      StaysLocked(ss, es, key, i, j - 1);
      assert Next(ss[j - 1], es[j - 1]) == Some(ss[j - 1 + 1]);
    }
  }

  /** Once some `Lock` has returned, no credential response is written and no
      rotation is committed, ever. */
  lemma NothingAfterLockReturns(ss: seq<State>, es: seq<Event>, key: seq<Byte>, i: nat, j: nat)
    requires IsRun(ss, es, key) && i < j < |es| && LockReturns(ss[i], es[i])
    ensures !TakesEffect(ss[j], es[j])
  {
    InvAlways(ss, es, key, i);
    StaysLocked(ss, es, key, i, j);
    InvAlways(ss, es, key, j);
    assert Next(ss[j], es[j]) == Some(ss[j + 1]);
    if TakesEffect(ss[j], es[j]) {
      CountPositive(ss[j].requests, es[j].t);
    }
  }

  lemma StepRankFalls(s: State, e: Event, t: nat)
    requires Next(s, e).Some? && t < |s.requests|
    ensures var s' := Next(s, e).value;
            && t < |s'.requests| && Rank(s'.requests[t].pc) <= Rank(s.requests[t].pc)
            && s'.requests[t].kind == s.requests[t].kind
  {
  }

  lemma {:induction false} RankFalls(ss: seq<State>, es: seq<Event>, key: seq<Byte>, i: nat, j: nat, t: nat)
    requires IsRun(ss, es, key) && i <= j < |ss| && t < |ss[i].requests|
    ensures t < |ss[j].requests| && Rank(ss[j].requests[t].pc) <= Rank(ss[i].requests[t].pc)
    ensures ss[j].requests[t].kind == ss[i].requests[t].kind
  {
    hide Next, Rank, Initial;
    if i < j {
      RankFalls(ss, es, key, i, j - 1, t);
      assert Next(ss[j - 1], es[j - 1]) == Some(ss[j - 1 + 1]);
      StepRankFalls(ss[j - 1], es[j - 1], t);
    }
  }

  /** A request that takes effect after a lock's critical section had made its
      last check before it: any check it makes later turns it away, even if it
      copied the key long before. */
  lemma LastCheckBeforeLock(ss: seq<State>, es: seq<Event>, key: seq<Byte>, c: nat, i: nat, j: nat)
    requires IsRun(ss, es, key) && c < i < j < |es| && es[c].Invalidate? && TakesEffect(ss[j], es[j])
    ensures es[i] != CheckGeneration(es[j].t)
  {
    var t := es[j].t;
    assert Next(ss[c], es[c]) == Some(ss[c + 1]);
    StaysLocked(ss, es, key, c + 1, i);
    assert Next(ss[i], es[i]) == Some(ss[i + 1]);
    assert Next(ss[j], es[j]) == Some(ss[j + 1]);
    if es[i] == CheckGeneration(t) {
      RankFalls(ss, es, key, i + 1, j, t);
    }
  }

  /** Some `Lock` call's critical section came before step `k`. */
  predicate LockedBefore(es: seq<Event>, k: nat)
    requires k <= |es|
  {
    exists c :: 0 <= c < k && es[c].Invalidate?
  }

  lemma {:induction false} LockedExactly(ss: seq<State>, es: seq<Event>, key: seq<Byte>, k: nat)
    requires IsRun(ss, es, key) && k <= |es|
    ensures ss[k].session.locked <==> LockedBefore(es, k)
  {
    if k > 0 {
      LockedExactly(ss, es, key, k - 1);
      assert Next(ss[k - 1], es[k - 1]) == Some(ss[k - 1 + 1]);
    }
  }

  /** A thread that asks for the key gets the very bytes the session was opened
      with, never zeroed or half-zeroed ones, if no lock came before, and is
      turned away without a key otherwise. */
  lemma ReadKeyExactly(ss: seq<State>, es: seq<Event>, key: seq<Byte>, k: nat, t: nat)
    requires IsRun(ss, es, key) && k < |es| && es[k] == ReadKey(t)
    ensures t < |ss[k].requests| == |ss[k + 1].requests|
    ensures var before, after := ss[k].requests[t], ss[k + 1].requests[t];
            after == if LockedBefore(es, k) then before.(pc := Done) else before.(pc := KeyCopied, key := Some(key))
  {
    InvAlways(ss, es, key, k);
    LockedExactly(ss, es, key, k);
    assert Next(ss[k], es[k]) == Some(ss[k + 1]);
  }

  /** A check, of the context or of the generation, turns a request away if and
      only if a lock came before it. */
  lemma ChecksExactly(ss: seq<State>, es: seq<Event>, key: seq<Byte>, k: nat)
    requires IsRun(ss, es, key) && k < |es| && (es[k].CheckContext? || es[k].CheckGeneration?)
    ensures es[k].t < |ss[k + 1].requests|
    ensures ss[k + 1].requests[es[k].t].pc == Leaving <==> LockedBefore(es, k)
  {
    InvAlways(ss, es, key, k);
    LockedExactly(ss, es, key, k);
    assert Next(ss[k], es[k]) == Some(ss[k + 1]);
    assert Carries(ss[k].requests[es[k].t], ss[k].session, key);
  }

  /** `Lock` calls whose critical section is done. */
  function LocksBegun(ls: seq<Locker>): nat {
    if ls == [] then 0 else LocksBegun(ls[..|ls| - 1]) + if ls[|ls| - 1] == Calling then 0 else 1
  }

  lemma {:induction false} LocksAfter(ls: seq<Locker>, i: nat, l: Locker)
    requires i < |ls|
    ensures LocksBegun(ls[i := l])
            == LocksBegun(ls) - (if ls[i] == Calling then 0 else 1) + if l == Calling then 0 else 1
  {
    var front := ls[..|ls| - 1];
    if i < |front| {
      LocksAfter(front, i, l);
      assert ls[i := l][..|ls| - 1] == front[i := l];
    } else {
      assert ls[i := l][..|ls| - 1] == front;
    }
  }

  lemma {:induction false} WakingBeginsNothing(ls: seq<Locker>)
    ensures LocksBegun(Awake(ls)) == LocksBegun(ls)
  {
    if ls != [] {
      WakingBeginsNothing(ls[..|ls| - 1]);
      assert Awake(ls)[..|ls| - 1] == Awake(ls[..|ls| - 1]);
    }
  }

  lemma {:induction false} NoneBegun(ls: seq<Locker>)
    requires forall i :: 0 <= i < |ls| ==> ls[i] == Calling
    ensures LocksBegun(ls) == 0
  {
    if ls != [] {
      NoneBegun(ls[..|ls| - 1]);
    }
  }

  ghost predicate CountsLocks(g: Guarded, n: nat) {
    && g.generation == n % UINT64_RANGE && g.context == n && g.locked == (n > 0)
    && forall c: nat :: c in g.cancelled <==> c < n
  }

  lemma InvalidatedCounts(g: Guarded, n: nat)
    requires CountsLocks(g, n)
    ensures CountsLocks(Invalidated(g), n + 1)
  {
  }

  lemma SameCounts(g: Guarded, active: nat, n: nat)
    requires CountsLocks(g, n)
    ensures CountsLocks(g.(active := active), n)
  {
  }

  /** A request's step moves only the count, and at most wakes the lockers. */
  lemma RequestMovesOnlyCount(s: State, e: Event)
    requires ByRequest(e) && RequestStep(s, e).Some?
    ensures var s' := RequestStep(s, e).value;
            s'.session == s.session.(active := s'.session.active) && (s'.lockers == s.lockers || s'.lockers == Awake(s.lockers))
  {
  }

  lemma StepCountsLocks(s: State, e: Event)
    requires CountsLocks(s.session, LocksBegun(s.lockers)) && Next(s, e).Some?
    ensures CountsLocks(Next(s, e).value.session, LocksBegun(Next(s, e).value.lockers))
  {
    hide LocksBegun, CountsLocks, Invalidated, RequestStep, Awake;
    var s' := Next(s, e).value;
    match e {
      case Invalidate(l) =>
        LocksAfter(s.lockers, l, Looking);
        InvalidatedCounts(s.session, LocksBegun(s.lockers));
      case Look(l) => LocksAfter(s.lockers, l, s'.lockers[l]);
      case _ =>
        RequestMovesOnlyCount(s, e);
        WakingBeginsNothing(s.lockers);
        SameCounts(s.session, s'.session.active, LocksBegun(s.lockers));
    }
  }

  /** The generation and the context move once per `Lock` call and never
      otherwise, and exactly the earlier contexts are cancelled, so a request
      that registered before a lock fails either check on its own until the
      generation has wrapped around. */
  lemma {:induction false} GenerationCountsLocks(ss: seq<State>, es: seq<Event>, key: seq<Byte>, k: nat)
    requires IsRun(ss, es, key) && k < |ss|
    ensures CountsLocks(ss[k].session, LocksBegun(ss[k].lockers))
  {
    hide Next, CountsLocks;
    if k == 0 {
      assert forall i :: 0 <= i < |ss[0].lockers| ==> ss[0].lockers[i] in ss[0].lockers;
      NoneBegun(ss[0].lockers);
      FreshSessionCounts(ss[0].session, key);
    } else {
      GenerationCountsLocks(ss, es, key, k - 1);
      assert Next(ss[k - 1], es[k - 1]) == Some(ss[k - 1 + 1]);
      StepCountsLocks(ss[k - 1], es[k - 1]);
    }
  }

  lemma FreshSessionCounts(g: Guarded, key: seq<Byte>)
    requires g == Guarded(key, false, 0, 0, {}, 0)
    ensures CountsLocks(g, 0)
  {
  }

  // ---------------------------------------------------------------- termination

  predicate Enabled(s: State, e: Event) {
    Next(s, e).Some?
  }

  /** A step that moves a waiting lock forward: one by a counted request, or by
      a `Lock` call itself. */
  predicate Helps(s: State, e: Event) {
    if ByRequest(e) then e.t < |s.requests| && Active(s.requests[e.t].pc) else true
  }

  /** No deadlock and no lost wake-up: while a `Lock` call waits, it or some
      counted request can take a step. */
  lemma WaitingLockProgresses(s: State, key: seq<Byte>, l: nat) returns (e: Event)
    requires Inv(s, key) && l < |s.lockers| && (s.lockers[l] == Looking || s.lockers[l] == Asleep)
    ensures Enabled(s, e) && Helps(s, e)
  {
    if s.lockers[l] == Looking {
      e := Look(l);
    } else if s.holder.Some? {
      var t := s.holder.value;
      match s.requests[t].pc {
        case Holding => e := CheckContext(t);
        case ContextLive => e := CheckGeneration(t);
        case Cleared => e := Work(t, true);
        case Worked => e := CheckContext(t);
        case ContextLiveAgain => e := CheckGeneration(t);
        case Releasing => e := Respond(t);
        case Leaving => e := ReleaseMutex(t);
      }
    } else {
      var t := SomeActive(s.requests);
      e := if s.requests[t].pc == Registered then Acquire(t) else End(t);
    }
  }

  function WorkLeft(rs: seq<Request>): nat {
    if rs == [] then 0
    else WorkLeft(rs[..|rs| - 1]) + if Active(rs[|rs| - 1].pc) then Rank(rs[|rs| - 1].pc) else 0
  }

  lemma {:induction false} WorkAfter(rs: seq<Request>, t: nat, r: Request)
    requires t < |rs|
    ensures WorkLeft(rs[t := r])
            == WorkLeft(rs) - (if Active(rs[t].pc) then Rank(rs[t].pc) else 0) + if Active(r.pc) then Rank(r.pc) else 0
  {
    var front := rs[..|rs| - 1];
    if t < |front| {
      WorkAfter(front, t, r);
      assert rs[t := r][..|rs| - 1] == front[t := r];
    } else {
      assert rs[t := r][..|rs| - 1] == front;
    }
  }

  function LockersLeft(ls: seq<Locker>): (n: nat)
    ensures n <= 3 * |ls|
  {
    if ls == [] then 0 else LockersLeft(ls[..|ls| - 1]) + LockerRank(ls[|ls| - 1])
  }

  lemma {:induction false} LockersAfter(ls: seq<Locker>, i: nat, l: Locker)
    requires i < |ls|
    ensures LockersLeft(ls[i := l]) == LockersLeft(ls) - LockerRank(ls[i]) + LockerRank(l)
  {
    var front := ls[..|ls| - 1];
    if i < |front| {
      LockersAfter(front, i, l);
      assert ls[i := l][..|ls| - 1] == front[i := l];
    } else {
      assert ls[i := l][..|ls| - 1] == front;
    }
  }

  /** How much is left to do before every `Lock` call has returned: what the
      counted requests still have to do, then what the lockers do. */
  function Measure(s: State): nat {
    WorkLeft(s.requests) * (3 * |s.lockers| + 1) + LockersLeft(s.lockers)
  }

  lemma SmallerProduct(w: nat, w': nat, n: nat, x: nat, y: nat)
    requires w' < w && x <= n
    ensures w' * (n + 1) + x < w * (n + 1) + y
  {
    var d := w - w' - 1;
    assert w * (n + 1) == w' * (n + 1) + (n + 1) + d * (n + 1);
    assert d * (n + 1) >= 0;
  }

  lemma RequestRankFalls(s: State, e: Event)
    requires ByRequest(e) && RequestStep(s, e).Some? && s.session.locked
    ensures var s' := RequestStep(s, e).value;
            && e.t < |s.requests| && |s'.requests| == |s.requests| && |s'.lockers| == |s.lockers|
            && s'.requests == s.requests[e.t := s'.requests[e.t]]
            && if Active(s.requests[e.t].pc) then Rank(s'.requests[e.t].pc) < Rank(s.requests[e.t].pc)
               else !Active(s'.requests[e.t].pc) && s'.lockers == s.lockers
  {
  }

  lemma LockerRankFalls(s: State, e: Event)
    requires !ByRequest(e) && Next(s, e).Some?
    ensures var s' := Next(s, e).value;
            s'.requests == s.requests && |s'.lockers| == |s.lockers| && LockersLeft(s'.lockers) < LockersLeft(s.lockers)
  {
    var s' := Next(s, e).value;
    LockersAfter(s.lockers, e.l, s'.lockers[e.l]);
    assert s'.lockers == s.lockers[e.l := s'.lockers[e.l]];
  }

  /** Once locked, helping steps shrink the measure and newcomers cannot grow it. */
  lemma MeasureFalls(s: State, e: Event)
    requires s.session.locked && Next(s, e).Some?
    ensures if Helps(s, e) then Measure(Next(s, e).value) < Measure(s) else Measure(Next(s, e).value) == Measure(s)
  {
    hide WorkLeft, LockersLeft, RequestStep, Rank;
    if ByRequest(e) {
      var s' := RequestStep(s, e).value;
      RequestRankFalls(s, e);
      WorkAfter(s.requests, e.t, s'.requests[e.t]);
      if Helps(s, e) {
        SmallerProduct(WorkLeft(s.requests), WorkLeft(s'.requests), 3 * |s.lockers|, LockersLeft(s'.lockers),
                       LockersLeft(s.lockers));
      }
    } else {
      LockerRankFalls(s, e);
    }
  }

  function HelpingSteps(ss: seq<State>, es: seq<Event>, from: nat, to: nat): nat
    requires from <= to <= |es| && |ss| == |es| + 1
  {
    if from == to then 0 else HelpingSteps(ss, es, from, to - 1) + if Helps(ss[to - 1], es[to - 1]) then 1 else 0
  }

  /** However the threads interleave and however many requests keep arriving,
      only so many helping steps fit between a lock and the return of every
      `Lock` call; with `WaitingLockProgresses`, waiting ends. */
  lemma {:induction false} LockTerminates(ss: seq<State>, es: seq<Event>, key: seq<Byte>, i: nat, j: nat)
    requires IsRun(ss, es, key) && i <= j <= |es| && ss[i].session.locked
    ensures HelpingSteps(ss, es, i, j) + Measure(ss[j]) <= Measure(ss[i])
  {
    hide Next, Measure, Helps, Initial;
    if i < j {
      LockTerminates(ss, es, key, i, j - 1);
      StaysLocked(ss, es, key, i, j - 1);
      assert Next(ss[j - 1], es[j - 1]) == Some(ss[j - 1 + 1]);
      MeasureFalls(ss[j - 1], es[j - 1]);
    }
  }
}
