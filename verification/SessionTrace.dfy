/** The steps every request takes, in the order of a run's events: nothing is
    rotated or answered that was not checked first, under the operation mutex. */
module SessionTrace {
  import opened Lists
  import opened SessionLock

  /** The event that brings a thread to a place, and the place it comes from. */
  function Arrival(pc: PC, t: nat): Option<(Event, PC)> {
    match pc
    case KeyCopied => Some((ReadKey(t), Arrived))
    case Registered => Some((Begin(t), KeyCopied))
    case Holding => Some((Acquire(t), Registered))
    case ContextLive => Some((CheckContext(t), Holding))
    case Cleared => Some((CheckGeneration(t), ContextLive))
    case Worked => Some((Work(t, true), Cleared))
    case ContextLiveAgain => Some((CheckContext(t), Worked))
    case Releasing => Some((CheckGeneration(t), ContextLiveAgain))
    case _ => None
  }

  lemma StepArrives(s: State, e: Event, t: nat)
    requires Next(s, e).Some? && t < |s.requests| == |Next(s, e).value.requests|
    requires var pc := Next(s, e).value.requests[t].pc; pc != s.requests[t].pc && Arrival(pc, t).Some?
    ensures Arrival(Next(s, e).value.requests[t].pc, t) == Some((e, s.requests[t].pc))
  {
  }

  lemma StepKeepsThreads(s: State, e: Event)
    requires Next(s, e).Some?
    ensures |Next(s, e).value.requests| == |s.requests|
  {
  }

  /** A thread that is somewhere got there by the one event that leads there. */
  lemma {:induction false} ArrivedBy(ss: seq<State>, es: seq<Event>, key: seq<Byte>, k: nat, t: nat) returns (i: nat)
    requires IsRun(ss, es, key) && k < |ss| && t < |ss[k].requests| && Arrival(ss[k].requests[t].pc, t).Some?
    ensures i < k && t < |ss[i].requests|
    ensures Arrival(ss[k].requests[t].pc, t) == Some((es[i], ss[i].requests[t].pc))
    ensures ss[i + 1].requests[t].pc == ss[k].requests[t].pc
  {
    hide Next, Arrival;
    if k == 0 {
      assert ss[0].requests[t] in ss[0].requests;
      StartsNowhere(t);
    } else {
      assert Next(ss[k - 1], es[k - 1]) == Some(ss[k - 1 + 1]);
      StepKeepsThreads(ss[k - 1], es[k - 1]);
      if ss[k - 1].requests[t].pc == ss[k].requests[t].pc {
        i := ArrivedBy(ss, es, key, k - 1, t);
      } else {
        i := k - 1;
        StepArrives(ss[k - 1], es[k - 1], t);
      }
    }
  }

  lemma StartsNowhere(t: nat)
    ensures Arrival(Arrived, t).None?
  {
  }

  /** A check that a thread passed came before every lock. */
  lemma PassedBeforeLocks(ss: seq<State>, es: seq<Event>, key: seq<Byte>, i: nat)
    requires IsRun(ss, es, key) && i < |es| && (es[i].CheckContext? || es[i].CheckGeneration?)
    requires es[i].t < |ss[i + 1].requests| && ss[i + 1].requests[es[i].t].pc != Leaving
    ensures !LockedBefore(es, i)
  {
    ChecksExactly(ss, es, key, i);
  }

  /** Before a thread works, successfully or not, it copied the key, registered,
      took the operation mutex and passed both checks, in this order, the last
      of them before any lock. */
  lemma WorkFollowsChecks(ss: seq<State>, es: seq<Event>, key: seq<Byte>, j: nat)
    returns (r: nat, b: nat, a: nat, c: nat, g: nat)
    requires IsRun(ss, es, key) && j < |es| && es[j].Work?
    ensures r < b < a < c < g < j
    ensures es[r] == ReadKey(es[j].t) && es[b] == Begin(es[j].t) && es[a] == Acquire(es[j].t)
    ensures es[c] == CheckContext(es[j].t) && es[g] == CheckGeneration(es[j].t) && !LockedBefore(es, g)
  {
    var t := es[j].t;
    assert Next(ss[j], es[j]) == Some(ss[j + 1]);
    g := ArrivedBy(ss, es, key, j, t);
    c := ArrivedBy(ss, es, key, g, t);
    a := ArrivedBy(ss, es, key, c, t);
    b := ArrivedBy(ss, es, key, a, t);
    r := ArrivedBy(ss, es, key, b, t);
    PassedBeforeLocks(ss, es, key, g);
  }

  /** Before a thread responds it worked successfully and then passed both
      checks again, the last of them before any lock. */
  lemma ResponseFollowsWork(ss: seq<State>, es: seq<Event>, key: seq<Byte>, j: nat) returns (w: nat, c: nat, g: nat)
    requires IsRun(ss, es, key) && j < |es| && es[j].Respond?
    ensures w < c < g < j
    ensures es[w] == Work(es[j].t, true) && es[c] == CheckContext(es[j].t) && es[g] == CheckGeneration(es[j].t)
    ensures !LockedBefore(es, g)
  {
    var t := es[j].t;
    assert Next(ss[j], es[j]) == Some(ss[j + 1]);
    g := ArrivedBy(ss, es, key, j, t);
    c := ArrivedBy(ss, es, key, g, t);
    w := ArrivedBy(ss, es, key, c, t);
    PassedBeforeLocks(ss, es, key, g);
  }

  /** Whatever takes effect was checked under the mutex, for a response also
      after the work. */
  lemma EffectsAreChecked(ss: seq<State>, es: seq<Event>, key: seq<Byte>, j: nat) returns (a: nat, c: nat, g: nat)
    requires IsRun(ss, es, key) && j < |es| && TakesEffect(ss[j], es[j])
    ensures a < c < g < j && es[a] == Acquire(es[j].t) && es[c] == CheckContext(es[j].t) && es[g] == CheckGeneration(es[j].t)
    ensures !LockedBefore(es, g)
  {
    var work := j;
    if es[j].Respond? {
      var w, c2, g2 := ResponseFollowsWork(ss, es, key, j);
      work := w;
    }
    var r, b;
    r, b, a, c, g := WorkFollowsChecks(ss, es, key, work);
  }

  /** So a request that takes the mutex after a lock's critical section, however
      early it copied the key, takes no effect. */
  lemma LockedOut(ss: seq<State>, es: seq<Event>, key: seq<Byte>, l: nat, a: nat, j: nat)
    requires IsRun(ss, es, key) && l < a < j < |es| && es[l].Invalidate?
    requires ByRequest(es[j]) && es[a] == Acquire(es[j].t)
    ensures !TakesEffect(ss[j], es[j])
  {
    if TakesEffect(ss[j], es[j]) {
      var a', c, g := EffectsAreChecked(ss, es, key, j);
      assert Next(ss[a], es[a]) == Some(ss[a + 1]) && Next(ss[g], es[g]) == Some(ss[g + 1]);
      if g < a {
        RankFalls(ss, es, key, g, a, es[j].t);
      }
    }
  }

  /** The holder keeps the mutex until it releases it. */
  lemma {:induction false} HeldUntilReleased(ss: seq<State>, es: seq<Event>, key: seq<Byte>, a: nat, b: nat)
    requires IsRun(ss, es, key) && a < b <= |es| && es[a].Acquire?
    requires forall r :: a < r < b ==> es[r] != ReleaseMutex(es[a].t)
    ensures ss[b].holder == Some(es[a].t)
  {
    assert Next(ss[b - 1], es[b - 1]) == Some(ss[b - 1 + 1]);
    if a < b - 1 {
      HeldUntilReleased(ss, es, key, a, b - 1);
      InvAlways(ss, es, key, b - 1);
    }
  }

  /** Operations never overlap: between two acquisitions the first thread has
      released the mutex. */
  lemma OneAtATime(ss: seq<State>, es: seq<Event>, key: seq<Byte>, a: nat, b: nat)
    requires IsRun(ss, es, key) && a < b < |es| && es[a].Acquire? && es[b].Acquire?
    ensures exists r :: a < r < b && es[r] == ReleaseMutex(es[a].t)
  {
    assert Next(ss[b], es[b]) == Some(ss[b + 1]);
    if forall r :: a < r < b ==> es[r] != ReleaseMutex(es[a].t) {
      HeldUntilReleased(ss, es, key, a, b);
    }
  }

  /** A thread that copied the key is registered, and counted, unless a lock came
      before; then it is turned away and not counted. */
  lemma BeginExactly(ss: seq<State>, es: seq<Event>, key: seq<Byte>, k: nat, t: nat)
    requires IsRun(ss, es, key) && k < |es| && es[k] == Begin(t)
    ensures t < |ss[k + 1].requests|
    ensures if LockedBefore(es, k) then ss[k + 1].requests[t].pc == Done && ss[k + 1].session == ss[k].session
            else ss[k + 1].requests[t].pc == Registered && ss[k + 1].session.active == ss[k].session.active + 1
  {
    LockedExactly(ss, es, key, k);
    assert Next(ss[k], es[k]) == Some(ss[k + 1]);
  }
}
