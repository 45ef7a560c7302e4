/** The lock-free limit on event-stream connections.

    `SSEConnectionLimiter` is the object with its retry loop.  The state machine below it splits
    Acquire into its separate atomic load and compare-and-swap, taken by any number of threads in
    any order.
 */
module SseLimiter {

  /** What a thread loads in round `k`. */
  function Seen(start: int, others: seq<int>, k: nat): int
    requires k <= |others|
  {
    if k == 0 then start else others[k - 1]
  }

  class SSEConnectionLimiter {
    const max: int
    var active: int

    constructor (max: int)
      ensures this.max == max && active == 0
    {
      this.max, active := max, 0;
    }

    method CompareAndSwap(expected: int, value: int) returns (swapped: bool)
      modifies this
      ensures swapped == (old(active) == expected)
      ensures active == if swapped then value else old(active)
    {
      swapped := active == expected;
      if swapped { active := value; }
    }

    /** `others[k]` is what the other threads leave in the counter between this thread's load and
        its compare-and-swap in round `k`; after the last one they are quiet.  Every round but the
        last failed because the counter was moved; the last either took a free place or saw none. */
    method Acquire(others: seq<int>) returns (ok: bool, rounds: nat)
      modifies this
      ensures max <= 0 ==> ok && rounds == 0 && active == old(active) + 1
      ensures max > 0 ==> rounds <= |others| && forall k | 0 <= k < rounds ::
                Seen(old(active), others, k) < max && others[k] != Seen(old(active), others, k)
      ensures max > 0 ==> ok == (Seen(old(active), others, rounds) < max)
      ensures max > 0 && ok ==> active == Seen(old(active), others, rounds) + 1 <= max
      ensures max > 0 && !ok ==> active == Seen(old(active), others, rounds)
    {
      rounds := 0;
      if max <= 0 {
        active := active + 1;
        return true, 0;
      }
      while true
        invariant rounds <= |others| && active == Seen(old(active), others, rounds)
        invariant forall k | 0 <= k < rounds ::
                    Seen(old(active), others, k) < max && others[k] != Seen(old(active), others, k)
        decreases |others| - rounds
      {
        var cur := active;
        if cur >= max { return false, rounds; }
        if rounds < |others| { active := others[rounds]; }
        var swapped := CompareAndSwap(cur, cur + 1);
        if swapped { return true, rounds; }
        rounds := rounds + 1;
      }
    }

    method Release()
      modifies this
      ensures active == old(active) - 1
    {
      active := active - 1;
    }
  }

  /** A thread between its load and its compare-and-swap remembers what it loaded. */
  datatype Phase = Outside | Loaded(cur: int) | Holding

  datatype Limiter = Limiter(max: int, active: int, threads: map<nat, Phase>)

  /** `Cas` of a thread that loaded a stale value fails and sends it back to `Load`. */
  datatype Event = Load(t: nat) | Cas(t: nat) | Add(t: nat) | Release(t: nat)

  function PhaseOf(l: Limiter, t: nat): Phase {
    if t in l.threads then l.threads[t] else Outside
  }

  /** Only a holder releases. */
  predicate Enabled(l: Limiter, e: Event) {
    match e
    case Load(t) => PhaseOf(l, t).Outside? && l.max > 0
    case Cas(t) => PhaseOf(l, t).Loaded?
    case Add(t) => PhaseOf(l, t).Outside? && l.max <= 0
    case Release(t) => PhaseOf(l, t).Holding?
  }

  function Step(l: Limiter, e: Event): Limiter {
    match e
    case Load(t) => if l.active >= l.max then l else l.(threads := l.threads[t := Loaded(l.active)])
    case Cas(t) =>
      if PhaseOf(l, t) == Loaded(l.active) then l.(active := l.active + 1, threads := l.threads[t := Holding])
      else l.(threads := l.threads[t := Outside])
    case Add(t) => l.(active := l.active + 1, threads := l.threads[t := Holding])
    case Release(t) => l.(active := l.active - 1, threads := l.threads[t := Outside])
  }

  /** What each step does: a full limiter refuses at the load, a stale compare-and-swap sends the thread back,
      a current one and an unlimited add take a place, and a release gives one back. */
  lemma StepDoes(l: Limiter, e: Event)
    requires Enabled(l, e)
    ensures var l', p := Step(l, e), PhaseOf(Step(l, e), e.t);
            && l'.max == l.max && (forall t | t != e.t :: PhaseOf(l', t) == PhaseOf(l, t))
            && (e.Load? ==> l'.active == l.active && p == if l.active < l.max then Loaded(l.active) else Outside)
            && (e.Cas? ==> if PhaseOf(l, e.t).cur == l.active then l'.active == l.active + 1 && p == Holding
                           else l'.active == l.active && p == Outside)
            && (e.Add? ==> l'.active == l.active + 1 && p == Holding)
            && (e.Release? ==> l'.active == l.active - 1 && p == Outside)
  {}

  function After(max: int, run: seq<Event>): Limiter {
    if run == [] then Limiter(max, 0, map[]) else Step(After(max, run[..|run| - 1]), run[|run| - 1])
  }

  predicate Legal(max: int, run: seq<Event>)
    decreases |run|
  {
    run == [] || (Legal(max, run[..|run| - 1]) && Enabled(After(max, run[..|run| - 1]), run[|run| - 1]))
  }

  function Holders(threads: map<nat, Phase>): set<nat> {
    set t | t in threads && threads[t].Holding?
  }

  ghost predicate Inv(l: Limiter) {
    && l.active == |Holders(l.threads)|
    && (l.max > 0 ==> l.active <= l.max)
    && (forall t | t in l.threads && l.threads[t].Loaded? :: l.threads[t].cur < l.max)
  }

  lemma HoldersChange(threads: map<nat, Phase>, t: nat, p: Phase)
    ensures Holders(threads[t := p]) == if p.Holding? then Holders(threads) + {t} else Holders(threads) - {t}
    ensures |Holders(threads[t := p])| ==
              |Holders(threads)| + (if p.Holding? then 1 else 0)
                - (if t in threads && threads[t].Holding? then 1 else 0)
  {
    var before, after := Holders(threads), Holders(threads[t := p]);
    assert after == if p.Holding? then before + {t} else before - {t};
    assert t in before <==> t in threads && threads[t].Holding?;
  }

  lemma StepKeepsInv(l: Limiter, e: Event)
    requires Inv(l) && Enabled(l, e)
    ensures Inv(Step(l, e))
  {
    HoldersChange(l.threads, e.t, Holding);
    HoldersChange(l.threads, e.t, Outside);
    HoldersChange(l.threads, e.t, Loaded(l.active));
    hide Holders;
  }

  /** On every interleaving the counter is the number of connections held, and never exceeds a
      positive limit. */
  lemma {:induction false} NeverOverLimit(max: int, run: seq<Event>)
    requires Legal(max, run)
    ensures Inv(After(max, run))
    decreases |run|
  {
    if run != [] {
      NeverOverLimit(max, run[..|run| - 1]);
      StepKeepsInv(After(max, run[..|run| - 1]), run[|run| - 1]);
    }
  }

  /** Step `k` of the run moves the counter. */
  predicate Moves(max: int, run: seq<Event>, k: nat)
    requires k < |run|
  {
    After(max, run[..k + 1]).active != After(max, run[..k]).active
  }

  lemma {:induction false} LoadedStaysCurrent(max: int, run: seq<Event>, t: nat, i: nat, j: nat)
    requires i <= j <= |run| && forall k | i <= k < j :: run[k].t != t && !Moves(max, run, k)
    ensures PhaseOf(After(max, run[..j]), t) == PhaseOf(After(max, run[..i]), t)
    ensures After(max, run[..j]).active == After(max, run[..i]).active
    decreases j
  {
    if i < j {
      LoadedStaysCurrent(max, run, t, i, j - 1);
      assert run[..j][..j - 1] == run[..j - 1] && !Moves(max, run, j - 1);
    }
  }

  lemma UndisturbedCasSucceeds(max: int, run: seq<Event>, t: nat, i: nat, j: nat)
    requires i < j < |run| && run[i] == Load(t) && run[j] == Cas(t)
             && After(max, run[..i]).active < After(max, run[..i]).max
    requires forall k | i < k < j :: run[k].t != t && !Moves(max, run, k)
    ensures PhaseOf(After(max, run[..j + 1]), t).Holding?
  {
    assert run[..i + 1][..i] == run[..i] && run[..j + 1][..j] == run[..j];
    LoadedStaysCurrent(max, run, t, i + 1, j);
  }

  /** Lock freedom: when thread `t` loaded at step `i` with room left, took no step until its
      compare-and-swap at step `j`, and that failed, some other thread moved the counter in between. */
  lemma FailedCasMeansProgress(max: int, run: seq<Event>, t: nat, i: nat, j: nat)
    requires i < j < |run| && run[i] == Load(t) && run[j] == Cas(t)
             && After(max, run[..i]).active < After(max, run[..i]).max
    requires forall k | i < k < j :: run[k].t != t
    requires !PhaseOf(After(max, run[..j + 1]), t).Holding?
    ensures exists k :: i < k < j && run[k].t != t && Moves(max, run, k)
  {
    if forall k | i < k < j :: !Moves(max, run, k) {
      UndisturbedCasSucceeds(max, run, t, i, j);
    }
  }
}
