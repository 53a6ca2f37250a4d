/**
 Reference-counted locks by key. Looking an entry up (or making it) and counting up is one atomic
 section, counting down (and deleting it) is another; the entry's own mutex lies between them.
 */
module KeyedLocks {
  import opened Common

  type Key = int

  /** An allocated lock object. It stays allocated after it leaves the table. */
  datatype Entry = Entry(key: Key, refs: int, holder: Option<nat>)

  datatype Stage =
    | Idle
    | Acquiring
    | Waiting(entry: nat)
    | Working
    | Dropping(entry: nat)
    | Done

  /** `keys` in the order they are taken; a guarded thread takes them under the process-wide mutex. */
  datatype Thread = Thread(keys: seq<Key>, guarded: bool, held: seq<nat>, stage: Stage)

  datatype State = State(threads: seq<Thread>, entries: seq<Entry>, table: map<Key, nat>, process: Option<nat>)

  // ---- Steps ---------------------------------------------------------------------------------

  predicate Running(s: State, t: nat) { t < |s.threads| }

  predicate Start(s: State, s': State, t: nat)
    requires Running(s, t)
  {
    var me := s.threads[t];
    me.stage.Idle? && (me.guarded ==> s.process.None?) &&
    s' == s.(threads := s.threads[t := me.(stage := Acquiring)], process := if me.guarded then Some(t) else s.process)
  }

  predicate Enter(s: State, s': State, t: nat)
    requires Running(s, t)
  {
    var me := s.threads[t];
    me.stage.Acquiring? && |me.held| < |me.keys| &&
    var key := me.keys[|me.held|];
    if key in s.table && s.table[key] < |s.entries| then
      var e := s.table[key];
      s' == s.(threads := s.threads[t := me.(stage := Waiting(e))], entries := s.entries[e := s.entries[e].(refs := s.entries[e].refs + 1)])
    else
      var e := |s.entries|;
      s' == s.(threads := s.threads[t := me.(stage := Waiting(e))], entries := s.entries + [Entry(key, 1, None)], table := s.table[key := e])
  }

  predicate Grab(s: State, s': State, t: nat)
    requires Running(s, t)
  {
    var me := s.threads[t];
    me.stage.Waiting? && me.stage.entry < |s.entries| && s.entries[me.stage.entry].holder.None? &&
    var e := me.stage.entry;
    s' == s.(threads := s.threads[t := me.(held := me.held + [e], stage := Acquiring)], entries := s.entries[e := s.entries[e].(holder := Some(t))])
  }

  predicate Finish(s: State, s': State, t: nat)
    requires Running(s, t)
  {
    var me := s.threads[t];
    me.stage.Acquiring? && |me.held| >= |me.keys| &&
    s' == s.(threads := s.threads[t := me.(stage := Working)], process := if me.guarded then None else s.process)
  }

  predicate Unlock(s: State, s': State, t: nat)
    requires Running(s, t)
  {
    var me := s.threads[t];
    me.stage.Working? && me.held != [] && me.held[|me.held| - 1] < |s.entries| &&
    var e := me.held[|me.held| - 1];
    s' == s.(threads := s.threads[t := me.(held := me.held[..|me.held| - 1], stage := Dropping(e))],
             entries := s.entries[e := s.entries[e].(holder := None)])
  }

  predicate Drop(s: State, s': State, t: nat)
    requires Running(s, t)
  {
    var me := s.threads[t];
    me.stage.Dropping? && me.stage.entry < |s.entries| &&
    var e := me.stage.entry;
    var refs := s.entries[e].refs - 1;
    s' == s.(threads := s.threads[t := me.(stage := Working)], entries := s.entries[e := s.entries[e].(refs := refs)],
             table := if refs == 0 then s.table - {s.entries[e].key} else s.table)
  }

  predicate End(s: State, s': State, t: nat)
    requires Running(s, t)
  {
    var me := s.threads[t];
    me.stage.Working? && me.held == [] && s' == s.(threads := s.threads[t := me.(stage := Done)])
  }

  predicate Step(s: State, s': State, t: nat) {
    Running(s, t) &&
    (Start(s, s', t) || Enter(s, s', t) || Grab(s, s', t) || Finish(s, s', t) || Unlock(s, s', t) || Drop(s, s', t) || End(s, s', t))
  }

  predicate Distinct(keys: seq<Key>) { forall i, j :: 0 <= i < j < |keys| ==> keys[i] != keys[j] }

  /** Only a guarded thread may take more than one key, and none twice. */
  predicate Disciplined(t: Thread) { Distinct(t.keys) && (t.guarded || |t.keys| <= 1) }

  predicate Unlocked(s: State) {
    s.entries == [] && s.table == map[] && s.process.None? &&
    forall t :: 0 <= t < |s.threads| ==> s.threads[t].stage.Idle? && s.threads[t].held == []
  }

  predicate Initial(s: State) { Unlocked(s) && forall t :: 0 <= t < |s.threads| ==> Disciplined(s.threads[t]) }

  ghost predicate Moves(s: State, s': State) { exists t :: Step(s, s', t) }

  ghost predicate Path(run: seq<State>) { forall k :: 0 < k < |run| ==> Moves(run[k - 1], run[k]) }

  ghost predicate Execution(run: seq<State>) { run != [] && Initial(run[0]) && Path(run) }

  // ---- Who counts ----------------------------------------------------------------------------

  /** Holding, waiting for, or about to count down: all three keep the entry. */
  predicate Claims(t: Thread, e: nat) { e in t.held || t.stage == Waiting(e) || t.stage == Dropping(e) }

  function Claimants(threads: seq<Thread>, e: nat): nat {
    if threads == [] then 0 else Claimants(threads[..|threads| - 1], e) + if Claims(threads[|threads| - 1], e) then 1 else 0
  }

  lemma {:induction false} ClaimantsUpdate(threads: seq<Thread>, t: nat, changed: Thread, e: nat)
    requires t < |threads|
    ensures Claimants(threads[t := changed], e) + (if Claims(threads[t], e) then 1 else 0) ==
            Claimants(threads, e) + (if Claims(changed, e) then 1 else 0)
  {
    hide Claims;
    var n := |threads| - 1;
    if t < n {
      assert threads[t := changed][..n] == threads[..n][t := changed];
      ClaimantsUpdate(threads[..n], t, changed, e);
    } else {
      assert threads[t := changed][..n] == threads[..n];
    }
  }

  lemma {:induction false} ClaimantsPositive(threads: seq<Thread>, e: nat)
    ensures Claimants(threads, e) > 0 <==> exists t :: 0 <= t < |threads| && Claims(threads[t], e)
  {
    hide Claims;
    if threads != [] {
      var n := |threads| - 1;
      ClaimantsPositive(threads[..n], e);
      assert forall t :: 0 <= t < n ==> threads[..n][t] == threads[t];
    }
  }

  // ---- Invariant -----------------------------------------------------------------------------

  predicate KeyIs(s: State, e: nat, key: Key) { e < |s.entries| && s.entries[e].key == key }

  predicate Fits(s: State, me: Thread) {
    Disciplined(me) && |me.held| <= |me.keys| && (forall i :: 0 <= i < |me.held| ==> KeyIs(s, me.held[i], me.keys[i])) &&
    match me.stage
    case Idle => me.held == []
    case Acquiring => true
    case Waiting(e) => |me.held| < |me.keys| && KeyIs(s, e, me.keys[|me.held|])
    case Working => true
    case Dropping(e) => |me.held| < |me.keys| && KeyIs(s, e, me.keys[|me.held|])
    case Done => me.held == []
  }

  /** The count is the number of claimants, and an entry is in the table exactly while it is positive. */
  predicate Counted(s: State, e: nat)
    requires e < |s.entries|
  {
    s.entries[e].refs == Claimants(s.threads, e) &&
    (s.entries[e].refs > 0 <==> s.entries[e].key in s.table && s.table[s.entries[e].key] == e)
  }

  predicate Held(s: State, e: nat)
    requires e < |s.entries|
  {
    forall t :: 0 <= t < |s.threads| ==> (s.entries[e].holder == Some(t) <==> e in s.threads[t].held)
  }

  predicate HolderRuns(s: State, e: nat)
    requires e < |s.entries|
  {
    s.entries[e].holder.Some? ==> s.entries[e].holder.value < |s.threads|
  }

  predicate Guards(s: State, t: nat)
    requires t < |s.threads|
  {
    s.process == Some(t) <==> s.threads[t].guarded && (s.threads[t].stage.Acquiring? || s.threads[t].stage.Waiting?)
  }

  predicate AllFit(s: State) { forall t :: 0 <= t < |s.threads| ==> Fits(s, s.threads[t]) }
  predicate AllCounted(s: State) { forall e :: 0 <= e < |s.entries| ==> Counted(s, e) }
  predicate AllHeld(s: State) { forall e :: 0 <= e < |s.entries| ==> Held(s, e) && HolderRuns(s, e) }
  predicate TableSound(s: State) { forall key :: key in s.table ==> KeyIs(s, s.table[key], key) }
  predicate AllGuarded(s: State) {
    (forall t :: 0 <= t < |s.threads| ==> Guards(s, t)) && (s.process.Some? ==> s.process.value < |s.threads|)
  }

  predicate Invariant(s: State) { AllFit(s) && AllCounted(s) && AllHeld(s) && TableSound(s) && AllGuarded(s) }

  // ---- Every step keeps it -------------------------------------------------------------------

  /** Entries stay what they are the entry of. */
  predicate KeysKept(s: State, s': State) {
    |s.entries| <= |s'.entries| && forall e :: 0 <= e < |s.entries| ==> s'.entries[e].key == s.entries[e].key
  }

  lemma FitsKept(s: State, s': State, t: nat)
    requires Running(s, t) && AllFit(s) && KeysKept(s, s')
    requires |s'.threads| == |s.threads| && (forall u :: 0 <= u < |s.threads| && u != t ==> s'.threads[u] == s.threads[u]) && Fits(s', s'.threads[t])
    ensures AllFit(s')
  {
  }

  /** Only thread `t` changed, from and to these claims. */
  lemma ClaimsKept(s: State, s': State, t: nat)
    requires Running(s, t) && Running(s', t) && s'.threads == s.threads[t := s'.threads[t]]
    ensures forall e: nat :: Claimants(s'.threads, e) ==
              Claimants(s.threads, e) + (if Claims(s'.threads[t], e) then 1 else 0) - (if Claims(s.threads[t], e) then 1 else 0)
  {
    hide Claims, Claimants;
    forall e: nat
      ensures Claimants(s'.threads, e) ==
              Claimants(s.threads, e) + (if Claims(s'.threads[t], e) then 1 else 0) - (if Claims(s.threads[t], e) then 1 else 0)
    {
      ClaimantsUpdate(s.threads, t, s'.threads[t], e);
    }
  }

  /** A thread claims no entry twice: its keys are distinct and every entry has one key. */
  lemma ClaimsOnce(s: State, me: Thread)
    requires Fits(s, me)
    ensures forall i, j :: 0 <= i < j < |me.held| ==> me.held[i] != me.held[j]
    ensures (me.stage.Waiting? || me.stage.Dropping?) ==> me.stage.entry !in me.held
  {
    forall i, j | 0 <= i < j < |me.held|
      ensures me.held[i] != me.held[j]
    {
      assert KeyIs(s, me.held[i], me.keys[i]) && KeyIs(s, me.held[j], me.keys[j]);
    }
    if me.stage.Waiting? || me.stage.Dropping? {
      forall i | 0 <= i < |me.held|
        ensures me.held[i] != me.stage.entry
      {
        assert KeyIs(s, me.held[i], me.keys[i]);
      }
    }
  }

  lemma StartKeeps(s: State, s': State, t: nat)
    requires Invariant(s) && Running(s, t) && Start(s, s', t)
    ensures AllFit(s')
    ensures AllCounted(s')
    ensures AllHeld(s')
    ensures TableSound(s')
    ensures AllGuarded(s')
  {
    hide Claimants;
    FitsKept(s, s', t);
    ClaimsKept(s, s', t);
    forall e | 0 <= e < |s'.entries|
      ensures Counted(s', e) && Held(s', e) && HolderRuns(s', e)
    {
      if e < |s.entries| { assert Counted(s, e) && Held(s, e) && HolderRuns(s, e); }
    }
    assert Guards(s, t);
    forall u | 0 <= u < |s'.threads|
      ensures Guards(s', u)
    {
      assert Guards(s, u);
    }
  }

  lemma FinishKeeps(s: State, s': State, t: nat)
    requires Invariant(s) && Running(s, t) && Finish(s, s', t)
    ensures AllFit(s')
    ensures AllCounted(s')
    ensures AllHeld(s')
    ensures TableSound(s')
    ensures AllGuarded(s')
  {
    hide Claimants;
    FitsKept(s, s', t);
    ClaimsKept(s, s', t);
    forall e | 0 <= e < |s'.entries|
      ensures Counted(s', e) && Held(s', e) && HolderRuns(s', e)
    {
      if e < |s.entries| { assert Counted(s, e) && Held(s, e) && HolderRuns(s, e); }
    }
    assert Guards(s, t);
    forall u | 0 <= u < |s'.threads|
      ensures Guards(s', u)
    {
      assert Guards(s, u);
    }
  }

  lemma EndKeeps(s: State, s': State, t: nat)
    requires Invariant(s) && Running(s, t) && End(s, s', t)
    ensures AllFit(s')
    ensures AllCounted(s')
    ensures AllHeld(s')
    ensures TableSound(s')
    ensures AllGuarded(s')
  {
    hide Claimants;
    FitsKept(s, s', t);
    ClaimsKept(s, s', t);
    forall e | 0 <= e < |s'.entries|
      ensures Counted(s', e) && Held(s', e) && HolderRuns(s', e)
    {
      if e < |s.entries| { assert Counted(s, e) && Held(s, e) && HolderRuns(s, e); }
    }
    assert Guards(s, t);
    forall u | 0 <= u < |s'.threads|
      ensures Guards(s', u)
    {
      assert Guards(s, u);
    }
  }

  lemma GrabKeeps(s: State, s': State, t: nat)
    requires Invariant(s) && Running(s, t) && Grab(s, s', t)
    ensures AllFit(s')
    ensures AllCounted(s')
    ensures AllHeld(s')
    ensures TableSound(s')
    ensures AllGuarded(s')
  {
    hide Claimants;
    var me, e := s.threads[t], s.threads[t].stage.entry;
    ClaimsOnce(s, me);
    assert Fits(s', s'.threads[t]);
    FitsKept(s, s', t);
    ClaimsKept(s, s', t);
    assert forall x: nat :: Claims(s'.threads[t], x) <==> Claims(me, x);
    forall e | 0 <= e < |s'.entries|
      ensures Counted(s', e) && Held(s', e) && HolderRuns(s', e)
    {
      if e < |s.entries| { assert Counted(s, e) && Held(s, e) && HolderRuns(s, e); }
    }
    assert Guards(s, t);
    forall u | 0 <= u < |s'.threads|
      ensures Guards(s', u)
    {
      assert Guards(s, u);
    }
  }

  lemma UnlockKeeps(s: State, s': State, t: nat)
    requires Invariant(s) && Running(s, t) && Unlock(s, s', t)
    ensures AllFit(s')
    ensures AllCounted(s')
    ensures AllHeld(s')
    ensures TableSound(s')
    ensures AllGuarded(s')
  {
    hide Claimants;
    var me := s.threads[t];
    var n := |me.held| - 1;
    ClaimsOnce(s, me);
    assert KeyIs(s, me.held[n], me.keys[n]);
    assert Fits(s', s'.threads[t]);
    FitsKept(s, s', t);
    ClaimsKept(s, s', t);
    assert me.held == me.held[..n] + [me.held[n]];
    assert forall x: nat :: Claims(s'.threads[t], x) <==> Claims(me, x);
    forall e | 0 <= e < |s'.entries|
      ensures Counted(s', e) && Held(s', e) && HolderRuns(s', e)
    {
      if e < |s.entries| { assert Counted(s, e) && Held(s, e) && HolderRuns(s, e); }
    }
    assert Guards(s, t);
    forall u | 0 <= u < |s'.threads|
      ensures Guards(s', u)
    {
      assert Guards(s, u);
    }
  }

  lemma EnterKeeps(s: State, s': State, t: nat)
    requires Invariant(s) && Running(s, t) && Enter(s, s', t)
    ensures AllFit(s')
    ensures AllCounted(s')
    ensures AllHeld(s')
    ensures TableSound(s')
    ensures AllGuarded(s')
  {
    hide Claimants;
    var me := s.threads[t];
    var e := s'.threads[t].stage.entry;
    assert Fits(s', s'.threads[t]);
    FitsKept(s, s', t);
    ClaimsOnce(s', s'.threads[t]);
    ClaimsKept(s, s', t);
    assert forall x: nat :: Claims(s'.threads[t], x) <==> Claims(me, x) || x == e;
    assert !Claims(me, e);
    if e == |s.entries| { FreshUnclaimed(s, e); }
    forall e | 0 <= e < |s'.entries|
      ensures Counted(s', e) && Held(s', e) && HolderRuns(s', e)
    {
      if e < |s.entries| { assert Counted(s, e) && Held(s, e) && HolderRuns(s, e); }
    }
    assert Guards(s, t);
    forall u | 0 <= u < |s'.threads|
      ensures Guards(s', u)
    {
      assert Guards(s, u);
    }
  }

  lemma FreshUnclaimed(s: State, e: nat)
    requires AllFit(s) && e >= |s.entries|
    ensures Claimants(s.threads, e) == 0 && forall t :: 0 <= t < |s.threads| ==> e !in s.threads[t].held
  {
    forall t | 0 <= t < |s.threads|
      ensures !Claims(s.threads[t], e)
    {
      var me := s.threads[t];
      assert Fits(s, me);
      assert forall i :: 0 <= i < |me.held| ==> KeyIs(s, me.held[i], me.keys[i]);
    }
    ClaimantsPositive(s.threads, e);
  }

  lemma DropKeeps(s: State, s': State, t: nat)
    requires Invariant(s) && Running(s, t) && Drop(s, s', t)
    ensures AllFit(s')
    ensures AllCounted(s')
    ensures AllHeld(s')
    ensures TableSound(s')
    ensures AllGuarded(s')
  {
    hide Claimants;
    var me := s.threads[t];
    var e := me.stage.entry;
    ClaimsOnce(s, me);
    assert Fits(s', s'.threads[t]);
    FitsKept(s, s', t);
    ClaimsKept(s, s', t);
    assert forall x: nat :: Claims(s'.threads[t], x) <==> Claims(me, x) && x != e;
    assert Counted(s, e);
    forall e | 0 <= e < |s'.entries|
      ensures Counted(s', e) && Held(s', e) && HolderRuns(s', e)
    {
      if e < |s.entries| { assert Counted(s, e) && Held(s, e) && HolderRuns(s, e); }
    }
    assert Guards(s, t);
    forall u | 0 <= u < |s'.threads|
      ensures Guards(s', u)
    {
      assert Guards(s, u);
    }
  }

  lemma StepKeeps(s: State, s': State, t: nat)
    requires Invariant(s) && Step(s, s', t)
    ensures Invariant(s')
  {
    hide AllFit, AllCounted, AllHeld, TableSound, AllGuarded, Start, Enter, Grab, Finish, Unlock, Drop, End;
    if Start(s, s', t) { StartKeeps(s, s', t); }
    else if Enter(s, s', t) { EnterKeeps(s, s', t); }
    else if Grab(s, s', t) { GrabKeeps(s, s', t); }
    else if Finish(s, s', t) { FinishKeeps(s, s', t); }
    else if Unlock(s, s', t) { UnlockKeeps(s, s', t); }
    else if Drop(s, s', t) { DropKeeps(s, s', t); }
    else { EndKeeps(s, s', t); }
  }

  lemma {:induction false} Reachable(run: seq<State>)
    requires Execution(run)
    ensures Invariant(run[|run| - 1])
  {
    hide Step;
    if |run| > 1 {
      var n := |run| - 1;
      forall k | 0 < k < n
        ensures Moves(run[..n][k - 1], run[..n][k])
      {
        assert Moves(run[k - 1], run[k]);
      }
      Reachable(run[..n]);
      assert Moves(run[n - 1], run[n]);
      var t :| Step(run[n - 1], run[n], t);
      StepKeeps(run[n - 1], run[n], t);
    }
  }

  // ---- What is claimed -----------------------------------------------------------------------

  predicate HoldsKey(s: State, t: nat, key: Key) {
    t < |s.threads| && exists i :: 0 <= i < |s.threads[t].held| && KeyIs(s, s.threads[t].held[i], key)
  }

  /** Uses the lock of `key` in any way: holding it, waiting for it, or counting down. */
  predicate Uses(s: State, t: nat, e: nat, key: Key) { t < |s.threads| && KeyIs(s, e, key) && Claims(s.threads[t], e) }

  function Holders(threads: seq<Thread>, e: nat): nat {
    if threads == [] then 0 else Holders(threads[..|threads| - 1], e) + if e in threads[|threads| - 1].held then 1 else 0
  }

  function Waiters(threads: seq<Thread>, e: nat): nat {
    if threads == [] then 0 else Waiters(threads[..|threads| - 1], e) + if threads[|threads| - 1].stage == Waiting(e) then 1 else 0
  }

  function Droppers(threads: seq<Thread>, e: nat): nat {
    if threads == [] then 0 else Droppers(threads[..|threads| - 1], e) + if threads[|threads| - 1].stage == Dropping(e) then 1 else 0
  }

  lemma {:induction false} ClaimantsSplit(s: State, n: nat, e: nat)
    requires AllFit(s) && n <= |s.threads|
    ensures Claimants(s.threads[..n], e) == Holders(s.threads[..n], e) + Waiters(s.threads[..n], e) + Droppers(s.threads[..n], e)
  {
    if n > 0 {
      ClaimantsSplit(s, n - 1, e);
      assert s.threads[..n][..n - 1] == s.threads[..n - 1];
      ClaimsOnce(s, s.threads[n - 1]);
    }
  }

  /** All users of a key share one entry, and it is the one in the table. */
  lemma OneEntryPerKey(s: State, t: nat, e: nat, key: Key)
    requires Invariant(s) && Uses(s, t, e, key)
    ensures key in s.table && s.table[key] == e
  {
    ClaimantsPositive(s.threads, e);
    assert Counted(s, e);
  }

  /**
   In every reachable state: two threads never hold the same key; an entry's count is its holders plus
   its waiters plus the threads that have unlocked it but not yet counted down; it is in the table
   exactly while that count is positive; and all users of a key share one entry.
   */
  lemma LockSafety(run: seq<State>)
    requires Execution(run)
    ensures var s := run[|run| - 1];
            (forall t: nat, u: nat, key :: HoldsKey(s, t, key) && HoldsKey(s, u, key) ==> t == u) &&
            (forall e :: 0 <= e < |s.entries| ==>
              s.entries[e].refs == Holders(s.threads, e) + Waiters(s.threads, e) + Droppers(s.threads, e)) &&
            (forall e :: 0 <= e < |s.entries| ==>
              (s.entries[e].refs > 0 <==> s.entries[e].key in s.table && s.table[s.entries[e].key] == e)) &&
            (forall t: nat, u: nat, e: nat, f: nat, key :: Uses(s, t, e, key) && Uses(s, u, f, key) ==> e == f)
  {
    hide Claimants, Holders, Waiters, Droppers;
    Reachable(run);
    var s := run[|run| - 1];
    forall e | 0 <= e < |s.entries|
      ensures s.entries[e].refs == Holders(s.threads, e) + Waiters(s.threads, e) + Droppers(s.threads, e)
      ensures s.entries[e].refs > 0 <==> s.entries[e].key in s.table && s.table[s.entries[e].key] == e
    {
      assert Counted(s, e) && s.threads[..|s.threads|] == s.threads;
      ClaimantsSplit(s, |s.threads|, e);
    }
    forall t: nat, u: nat, e: nat, f: nat, key | Uses(s, t, e, key) && Uses(s, u, f, key)
      ensures e == f
    {
      OneEntryPerKey(s, t, e, key);
      OneEntryPerKey(s, u, f, key);
    }
    forall t: nat, u: nat, key | HoldsKey(s, t, key) && HoldsKey(s, u, key)
      ensures t == u
    {
      var i :| 0 <= i < |s.threads[t].held| && KeyIs(s, s.threads[t].held[i], key);
      var j :| 0 <= j < |s.threads[u].held| && KeyIs(s, s.threads[u].held[j], key);
      var e, f := s.threads[t].held[i], s.threads[u].held[j];
      assert Uses(s, t, e, key) && Uses(s, u, f, key);
      assert Held(s, e) && Held(s, f);
    }
  }

  // ---- No deadlock ---------------------------------------------------------------------------

  ghost predicate CanMove(s: State, t: nat) { exists s' :: Step(s, s', t) }

  predicate WaitsForProcess(s: State, t: nat)
    requires Running(s, t)
  {
    s.threads[t].stage.Idle? && s.threads[t].guarded && s.process.Some?
  }

  predicate WaitsForEntry(s: State, t: nat)
    requires Running(s, t)
  {
    s.threads[t].stage.Waiting? && s.threads[t].stage.entry < |s.entries| && s.entries[s.threads[t].stage.entry].holder.Some?
  }

  predicate Unfinished(s: State, t: nat) { Running(s, t) && !s.threads[t].stage.Done? }

  ghost predicate Live(s: State) { exists u :: Unfinished(s, u) && CanMove(s, u) }

  /** Every other thread that is not done can move. */
  lemma MovesUnlessWaiting(s: State, t: nat)
    requires Invariant(s) && Unfinished(s, t) && !WaitsForProcess(s, t) && !WaitsForEntry(s, t)
    ensures CanMove(s, t)
  {
    hide Claimants;
    var me := s.threads[t];
    assert Fits(s, me);
    match me.stage
    case Idle =>
      var s' := s.(threads := s.threads[t := me.(stage := Acquiring)], process := if me.guarded then Some(t) else s.process);
      assert Start(s, s', t) && Step(s, s', t);
    case Acquiring => AcquiringMoves(s, t);
    case Waiting(e) =>
      var s' := s.(threads := s.threads[t := me.(held := me.held + [e], stage := Acquiring)], entries := s.entries[e := s.entries[e].(holder := Some(t))]);
      assert Grab(s, s', t) && Step(s, s', t);
    case Working => WorkingMoves(s, t);
    case Dropping(e) =>
      var refs := s.entries[e].refs - 1;
      var s' := s.(threads := s.threads[t := me.(stage := Working)], entries := s.entries[e := s.entries[e].(refs := refs)],
                   table := if refs == 0 then s.table - {s.entries[e].key} else s.table);
      assert Drop(s, s', t) && Step(s, s', t);
  }

  lemma AcquiringMoves(s: State, t: nat)
    requires t < |s.threads| && s.threads[t].stage.Acquiring?
    ensures CanMove(s, t)
  {
    var me := s.threads[t];
    if |me.held| >= |me.keys| {
      var s' := s.(threads := s.threads[t := me.(stage := Working)], process := if me.guarded then None else s.process);
      assert Finish(s, s', t) && Step(s, s', t);
    } else {
      var key := me.keys[|me.held|];
      if key in s.table && s.table[key] < |s.entries| {
        var e := s.table[key];
        var s' := s.(threads := s.threads[t := me.(stage := Waiting(e))], entries := s.entries[e := s.entries[e].(refs := s.entries[e].refs + 1)]);
        assert Enter(s, s', t) && Step(s, s', t);
      } else {
        var e := |s.entries|;
        var s' := s.(threads := s.threads[t := me.(stage := Waiting(e))], entries := s.entries + [Entry(key, 1, None)], table := s.table[key := e]);
        assert Enter(s, s', t) && Step(s, s', t);
      }
    }
  }

  lemma WorkingMoves(s: State, t: nat)
    requires t < |s.threads| && s.threads[t].stage.Working? && Fits(s, s.threads[t])
    ensures CanMove(s, t)
  {
    var me := s.threads[t];
    if me.held == [] {
      var s' := s.(threads := s.threads[t := me.(stage := Done)]);
      assert End(s, s', t) && Step(s, s', t);
    } else {
      var n := |me.held| - 1;
      assert KeyIs(s, me.held[n], me.keys[n]);
      var e := me.held[n];
      var s' := s.(threads := s.threads[t := me.(held := me.held[..n], stage := Dropping(e))], entries := s.entries[e := s.entries[e].(holder := None)]);
      assert Unlock(s, s', t) && Step(s, s', t);
    }
  }

  /** Only one thread at a time waits while it holds something: it takes several keys, under the process mutex. */
  lemma OneWaiterHolds(s: State, h: nat, g: nat)
    requires Invariant(s) && Running(s, h) && Running(s, g) && h != g
    requires s.threads[h].held != [] && s.threads[h].stage.Waiting? && s.threads[g].held != []
    ensures !s.threads[g].stage.Waiting? && !s.threads[g].stage.Idle? && !s.threads[g].stage.Done?
  {
    assert Fits(s, s.threads[h]) && Fits(s, s.threads[g]);
    assert Guards(s, h) && Guards(s, g);
  }

  /** Whoever is waited for, someone can move, whatever the order of the keys. */
  lemma SomeoneMoves(s: State, t: nat)
    requires Invariant(s) && Running(s, t) && WaitsForEntry(s, t)
    ensures Live(s)
  {
    hide Claimants, CanMove, Guards;
    var e := s.threads[t].stage.entry;
    assert Held(s, e) && HolderRuns(s, e);
    var h := s.entries[e].holder.value;
    assert e in s.threads[h].held && Fits(s, s.threads[h]);
    if WaitsForEntry(s, h) {
      var f := s.threads[h].stage.entry;
      assert Held(s, f) && HolderRuns(s, f);
      var g := s.entries[f].holder.value;
      ClaimsOnce(s, s.threads[h]);
      assert f in s.threads[g].held && g != h;
      OneWaiterHolds(s, h, g);
      MovesUnlessWaiting(s, g);
    } else {
      MovesUnlessWaiting(s, h);
    }
  }

  /** In every reachable state some thread can move, unless all are done. */
  lemma NoDeadlock(run: seq<State>, t: nat)
    requires Execution(run) && Unfinished(run[|run| - 1], t)
    ensures Live(run[|run| - 1])
  {
    hide Invariant, CanMove;
    Reachable(run);
    var s := run[|run| - 1];
    var w := if WaitsForProcess(s, t) then ProcessOwner(s) else t;
    if WaitsForEntry(s, w) { SomeoneMoves(s, w); } else { MovesUnlessWaiting(s, w); }
  }

  function ProcessOwner(s: State): (w: nat)
    requires Invariant(s) && s.process.Some?
    ensures w < |s.threads| && (s.threads[w].stage.Acquiring? || s.threads[w].stage.Waiting?)
  {
    assert Guards(s, s.process.value);
    s.process.value
  }

  const GREEDY := Thread([1, 1], true, [], Idle)

  /** A thread that takes one key twice, alone and under the process mutex, ends up waiting for itself. */
  lemma RepeatedKeyBlocks() returns (run: seq<State>)
    ensures run != [] && Unlocked(run[0]) && run[0].threads == [GREEDY] && Path(run)
    ensures Unfinished(run[|run| - 1], 0) && !Live(run[|run| - 1])
  {
    var s0 := State([GREEDY], [], map[], None);
    var s1 := State([GREEDY.(stage := Acquiring)], [], map[], Some(0));
    var s2 := State([GREEDY.(stage := Waiting(0))], [Entry(1, 1, None)], map[1 := 0], Some(0));
    var s3 := State([GREEDY.(stage := Acquiring, held := [0])], [Entry(1, 1, Some(0))], map[1 := 0], Some(0));
    var s4 := State([GREEDY.(stage := Waiting(0), held := [0])], [Entry(1, 2, Some(0))], map[1 := 0], Some(0));
    assert Start(s0, s1, 0) && Enter(s1, s2, 0);
    assert s2.threads[0].held + [0] == [0];
    assert Grab(s2, s3, 0) && Enter(s3, s4, 0);
    assert Step(s0, s1, 0) && Step(s1, s2, 0) && Step(s2, s3, 0) && Step(s3, s4, 0);
    run := [s0, s1, s2, s3, s4];
    assert !CanMove(s4, 0);
  }

  // ---- The two sections of the table's mutex -------------------------------------------------

  /** The shared table and its lock objects; each method runs under the table's own mutex. */
  class LockTable {
    var table: map<Key, nat>
    var entries: seq<Entry>

    constructor ()
      ensures table == map[] && entries == []
    {
      table, entries := map[], [];
    }

    /** Before waiting for the entry: find or make it, and count up. This is the Enter step of thread `t`. */
    method CountUp(key: Key, ghost s: State, ghost t: nat) returns (e: nat, ghost s': State)
      requires Invariant(s) && s.table == table && s.entries == entries
      requires Running(s, t) && s.threads[t].stage.Acquiring? && |s.threads[t].held| < |s.threads[t].keys|
      requires key == s.threads[t].keys[|s.threads[t].held|]
      modifies this
      ensures Enter(s, s', t) && s'.table == table && s'.entries == entries
      ensures s'.threads[t].stage == Waiting(e) && key in table && table[key] == e
      ensures old(table).Keys <= table.Keys && forall k :: k in old(table) ==> table[k] == old(table)[k]
    {
      assert key in table ==> KeyIs(s, table[key], key);
      if key !in table {
        table, entries := table[key := |entries|], entries + [Entry(key, 0, None)];
      }
      e := table[key];
      entries := entries[e := entries[e].(refs := entries[e].refs + 1)];
      s' := s.(threads := s.threads[t := s.threads[t].(stage := Waiting(e))], entries := entries, table := table);
    }

    /** After unlocking the entry: count down, and delete it with its last user. This is the Drop step. */
    method CountDown(e: nat, ghost s: State, ghost t: nat) returns (ghost s': State)
      requires Invariant(s) && s.table == table && s.entries == entries
      requires Running(s, t) && s.threads[t].stage == Dropping(e) && e < |entries|
      modifies this
      ensures Drop(s, s', t) && s'.table == table && s'.entries == entries
      ensures old(entries)[e].key in table <==> old(entries)[e].refs > 1
    {
      assert Counted(s, e);
      assert Claims(s.threads[t], e);
      ClaimantsPositive(s.threads, e);
      entries := entries[e := entries[e].(refs := entries[e].refs - 1)];
      if entries[e].refs == 0 { table := table - {entries[e].key}; }
      s' := s.(threads := s.threads[t := s.threads[t].(stage := Working)], entries := entries, table := table);
    }
  }

  // ---- Sorted, each key once -----------------------------------------------------------------

  predicate Sorted(keys: seq<Key>) { forall i, j :: 0 <= i < j < |keys| ==> keys[i] <= keys[j] }

  /** The keys taken for a list of sorted identities: each of them, once, in order. */
  method KeysToLock(keys: seq<Key>) returns (taken: seq<Key>)
    requires Sorted(keys)
    ensures forall i, j :: 0 <= i < j < |taken| ==> taken[i] < taken[j]
    ensures forall k :: k in taken <==> k in keys
  {
    taken := [];
    for i := 0 to |keys|
      invariant forall a, b :: 0 <= a < b < |taken| ==> taken[a] < taken[b]
      invariant forall k :: k in taken <==> k in keys[..i]
      invariant i > 0 ==> taken != [] && taken[|taken| - 1] == keys[i - 1]
    {
      assert keys[..i + 1] == keys[..i] + [keys[i]];
      if i == 0 || keys[i - 1] != keys[i] {
        assert forall a :: 0 <= a < |taken| ==> taken[a] in taken && taken[a] <= taken[|taken| - 1];
        taken := taken + [keys[i]];
      }
    }
    assert keys[..|keys|] == keys;
  }
}
