/**
 * The mobile client's session cache: least recently used sessions are evicted, sessions with a running AI answer are
 * not, and the list of running sessions is cached.
 */
module ConversationCache {
  import opened Json

  type Id = string

  datatype Session = Session(messages: seq<string>, isAIRunning: bool, isNewConversation: bool, lastUpdated: nat)

  const MAX_CACHED: nat := 10

  /** `ids` are the keys of `states` in insertion order, as the session map iterates them; `access` is the access order,
      the most recent last; `running` is the cached list of running sessions. */
  datatype Manager = Manager(ids: seq<Id>, states: map<Id, Session>, access: seq<Id>, running: seq<Id>)

  // ---- Sequences of ids ----

  ghost predicate NoDuplicates(s: seq<Id>) {
    forall i, j :: 0 <= i < j < |s| ==> s[i] != s[j]
  }

  function Without(s: seq<Id>, gone: set<Id>): seq<Id> {
    if s == [] then [] else (if s[0] in gone then [] else [s[0]]) + Without(s[1..], gone)
  }

  predicate IsRunning(states: map<Id, Session>, id: Id) {
    id in states && states[id].isAIRunning
  }

  function RunningOf(ids: seq<Id>, states: map<Id, Session>): seq<Id> {
    if ids == [] then [] else (if IsRunning(states, ids[0]) then [ids[0]] else []) + RunningOf(ids[1..], states)
  }

  function Touched(access: seq<Id>, id: Id): seq<Id> {
    Without(access, {id}) + [id]
  }

  /** The first `n` of the order that are not running. */
  function Victims(order: seq<Id>, states: map<Id, Session>, n: nat): set<Id> {
    if order == [] || n == 0 then {}
    else if IsRunning(states, order[0]) then Victims(order[1..], states, n)
    else {order[0]} + Victims(order[1..], states, n - 1)
  }

  // ---- Operations ----

  function Evicted(m: Manager): set<Id> {
    if |m.ids| <= MAX_CACHED then {} else Victims(m.access, m.states, |m.ids| - MAX_CACHED)
  }

  function Cleaned(m: Manager): Manager {
    var gone := Evicted(m);
    if gone == {} then m else Manager(Without(m.ids, gone), m.states - gone, Without(m.access, gone), m.running)
  }

  function NewSession(now: nat): Session {
    Session([], false, false, now)
  }

  function Added(m: Manager, id: Id, now: nat): Manager {
    m.(ids := m.ids + [id], states := m.states[id := NewSession(now)])
  }

  function Initialized(m: Manager, id: Id, now: nat): Manager {
    var n := if id in m.states then m else Cleaned(Added(m, id, now));
    n.(access := Touched(n.access, id))
  }

  function Accessed(m: Manager, id: Id): Manager {
    if id in m.states then m.(access := Touched(m.access, id)) else m
  }

  function Notified(m: Manager): Manager {
    m.(running := RunningOf(m.ids, m.states))
  }

  function Updated(m: Manager, id: Id, updater: Session -> Session, now: nat): Manager {
    if id in m.states then Notified(m.(states := m.states[id := updater(m.states[id]).(lastUpdated := now)])) else m
  }

  /** Forgets the session, but not its place in the access order. */
  function Cleared(m: Manager, id: Id): Manager {
    Notified(m.(ids := Without(m.ids, {id}), states := m.states - {id}))
  }

  // ---- Lemmas on sequences ----

  lemma {:induction false} WithoutMembers(s: seq<Id>, gone: set<Id>, x: Id)
    ensures x in Without(s, gone) <==> x in s && x !in gone
  {
    if s != [] {
      WithoutMembers(s[1..], gone, x);
    }
  }

  lemma {:induction false} WithoutKeepsDistinct(s: seq<Id>, gone: set<Id>)
    requires NoDuplicates(s)
    ensures NoDuplicates(Without(s, gone))
  {
    if s != [] {
      WithoutKeepsDistinct(s[1..], gone);
      WithoutMembers(s[1..], gone, s[0]);
    }
  }

  lemma {:induction false} WithoutNothing(s: seq<Id>, gone: set<Id>)
    requires forall x :: x in gone ==> x !in s
    ensures Without(s, gone) == s
  {
    if s != [] {
      WithoutNothing(s[1..], gone);
    }
  }

  lemma TouchedIsDistinct(access: seq<Id>, id: Id)
    requires NoDuplicates(access)
    ensures NoDuplicates(Touched(access, id))
  {
    WithoutKeepsDistinct(access, {id});
    WithoutMembers(access, {id}, id);
  }

  lemma TouchedMembers(access: seq<Id>, id: Id, x: Id)
    ensures x in Touched(access, id) <==> x in access || x == id
  {
    WithoutMembers(access, {id}, x);
  }

  /** The size of a duplicate-free sequence that lists a set. */
  lemma {:induction false} DistinctSize(s: seq<Id>, members: set<Id>)
    requires NoDuplicates(s) && forall x :: x in members <==> x in s
    ensures |s| == |members|
  {
    if s == [] {
      assert members == {};
    } else {
      DistinctSize(s[1..], members - {s[0]});
    }
  }

  lemma {:induction false} VictimsAreIdle(order: seq<Id>, states: map<Id, Session>, n: nat, x: Id)
    requires x in Victims(order, states, n)
    ensures x in order && !IsRunning(states, x)
    decreases |order|
  {
    if IsRunning(states, order[0]) {
      VictimsAreIdle(order[1..], states, n, x);
    } else if x != order[0] {
      VictimsAreIdle(order[1..], states, n - 1, x);
    }
  }

  /** Victims come before every idle session that is kept. */
  lemma {:induction false} VictimsAreOldest(order: seq<Id>, states: map<Id, Session>, n: nat, i: nat, j: nat)
    requires NoDuplicates(order) && i < |order| && j < |order|
    requires order[i] in Victims(order, states, n)
    requires order[j] !in Victims(order, states, n) && !IsRunning(states, order[j])
    ensures i < j
    decreases |order|
  {
    if j == 0 {
      assert false;
    } else if i > 0 {
      var tail := order[1..];
      assert order[i] == tail[i - 1] && order[j] == tail[j - 1];
      VictimsAreOldest(tail, states, if IsRunning(states, order[0]) then n else n - 1, i - 1, j - 1);
    }
  }

  lemma VictimIsNew(x: Id, tail: seq<Id>, states: map<Id, Session>, n: nat)
    requires x !in tail
    ensures x !in Victims(tail, states, n)
  {
    if x in Victims(tail, states, n) {
      VictimsAreIdle(tail, states, n, x);
      assert false;
    }
  }

  function IdleIn(order: seq<Id>, states: map<Id, Session>): nat {
    if order == [] then 0 else IdleIn(order[1..], states) + if IsRunning(states, order[0]) then 0 else 1
  }

  lemma {:induction false} VictimsAreEnough(order: seq<Id>, states: map<Id, Session>, n: nat)
    requires NoDuplicates(order)
    ensures |Victims(order, states, n)| == if n <= IdleIn(order, states) then n else IdleIn(order, states)
    decreases |order|
  {
    if order != [] && n > 0 {
      var x, tail := order[0], order[1..];
      var m := if IsRunning(states, x) then n else n - 1;
      VictimsAreEnough(tail, states, m);
      VictimIsNew(x, tail, states, m);
    }
  }

  lemma {:induction false} IdleSize(order: seq<Id>, states: map<Id, Session>, idle: set<Id>)
    requires NoDuplicates(order) && forall x :: x in idle <==> x in order && !IsRunning(states, x)
    ensures IdleIn(order, states) == |idle|
    decreases |order|
  {
    if order == [] {
      assert idle == {};
    } else {
      var x, tail := order[0], order[1..];
      assert x !in tail;
      IdleSize(tail, states, idle - {x});
    }
  }

  // ---- Invariants ----

  /** The map's keys, the access order and the running list fit together; the order may still name cleared sessions. */
  ghost predicate Coherent(m: Manager) {
    && NoDuplicates(m.ids) && NoDuplicates(m.access)
    && (forall x :: x in m.ids <==> x in m.states)
    && (forall x :: x in m.ids ==> x in m.access)
    && m.running == RunningOf(m.ids, m.states)
  }

  /** The access order lists exactly the cached sessions, each once. */
  ghost predicate Ordered(m: Manager) {
    Coherent(m) && forall x :: x in m.access ==> x in m.ids
  }

  lemma {:induction false} RunningFrame(ids: seq<Id>, states: map<Id, Session>, states': map<Id, Session>)
    requires forall x :: x in ids ==> (IsRunning(states, x) <==> IsRunning(states', x))
    ensures RunningOf(ids, states) == RunningOf(ids, states')
  {
    if ids != [] {
      RunningFrame(ids[1..], states, states');
    }
  }

  lemma {:induction false} RunningAppend(ids: seq<Id>, id: Id, states: map<Id, Session>)
    requires !IsRunning(states, id)
    ensures RunningOf(ids + [id], states) == RunningOf(ids, states)
  {
    if ids == [] {
      assert [] + [id] == [id];
    } else {
      assert (ids + [id])[1..] == ids[1..] + [id];
      RunningAppend(ids[1..], id, states);
    }
  }

  /** Dropping idle sessions leaves the running list as it is. */
  lemma {:induction false} RunningSurvives(ids: seq<Id>, states: map<Id, Session>, gone: set<Id>)
    requires forall x :: x in gone ==> !IsRunning(states, x)
    ensures RunningOf(Without(ids, gone), states - gone) == RunningOf(ids, states)
  {
    if ids != [] {
      RunningSurvives(ids[1..], states, gone);
      var rest := Without(ids[1..], gone);
      if ids[0] in gone {
        assert Without(ids, gone) == rest;
      } else {
        assert Without(ids, gone) == [ids[0]] + rest && ([ids[0]] + rest)[1..] == rest;
      }
    }
  }

  lemma {:induction false} RunningMembers(ids: seq<Id>, states: map<Id, Session>, x: Id)
    ensures x in RunningOf(ids, states) <==> x in ids && IsRunning(states, x)
  {
    if ids != [] {
      RunningMembers(ids[1..], states, x);
    }
  }

  lemma {:induction false} RunningIsDistinct(ids: seq<Id>, states: map<Id, Session>)
    requires NoDuplicates(ids)
    ensures NoDuplicates(RunningOf(ids, states))
  {
    if ids != [] {
      RunningIsDistinct(ids[1..], states);
      RunningMembers(ids[1..], states, ids[0]);
    }
  }

  lemma CleaningKeeps(m: Manager, gone: set<Id>, n: Manager)
    requires NoDuplicates(m.ids) && NoDuplicates(m.access) && m.running == RunningOf(m.ids, m.states)
    requires forall x :: x in gone ==> !IsRunning(m.states, x)
    requires n.ids == Without(m.ids, gone) && n.states == m.states - gone && n.access == Without(m.access, gone)
    requires n.running == m.running
    ensures NoDuplicates(n.ids) && NoDuplicates(n.access) && n.running == RunningOf(n.ids, n.states)
    ensures forall x :: (x in n.ids <==> x in m.ids && x !in gone) && (x in n.access <==> x in m.access && x !in gone)
  {
    WithoutKeepsDistinct(m.ids, gone);
    WithoutKeepsDistinct(m.access, gone);
    RunningSurvives(m.ids, m.states, gone);
    forall x ensures (x in n.ids <==> x in m.ids && x !in gone) && (x in n.access <==> x in m.access && x !in gone) {
      WithoutMembers(m.ids, gone, x);
      WithoutMembers(m.access, gone, x);
    }
  }

  lemma EvictedAreIdle(m: Manager, x: Id)
    requires x in Evicted(m)
    ensures x in m.access && !IsRunning(m.states, x)
  {
    VictimsAreIdle(m.access, m.states, |m.ids| - MAX_CACHED, x);
  }

  lemma CleanedIs(m: Manager, n: Manager)
    requires n == Cleaned(m)
    ensures n.ids == Without(m.ids, Evicted(m)) && n.states == m.states - Evicted(m)
    ensures n.access == Without(m.access, Evicted(m)) && n.running == m.running
  {
    if Evicted(m) == {} {
      WithoutNothing(m.ids, {});
      WithoutNothing(m.access, {});
      assert m.states - {} == m.states;
    }
  }

  lemma AddedIs(m: Manager, id: Id, now: nat, a: Manager)
    requires Coherent(m) && id !in m.states && a == Added(m, id, now)
    ensures NoDuplicates(a.ids) && a.running == RunningOf(a.ids, a.states) && a.access == m.access
    ensures forall x :: x in a.ids <==> x in a.states
    ensures forall x :: x in a.ids <==> x in m.ids || x == id
    ensures forall x :: IsRunning(a.states, x) <==> IsRunning(m.states, x)
  {
    RunningFrame(m.ids, m.states, a.states);
    RunningAppend(m.ids, id, a.states);
  }

  /** Opening a session keeps everything together, also when the order still names cleared sessions. */
  lemma InitKeepsCoherent(m: Manager, id: Id, now: nat)
    requires Coherent(m)
    ensures Coherent(Initialized(m, id, now))
  {
    var n := if id in m.states then m else Cleaned(Added(m, id, now));
    if id !in m.states {
      var a := Added(m, id, now);
      AddedIs(m, id, now, a);
      CleanedIs(a, n);
      forall x | x in Evicted(a) ensures !IsRunning(a.states, x) {
        EvictedAreIdle(a, x);
      }
      CleaningKeeps(a, Evicted(a), n);
    }
    TouchedIsDistinct(n.access, id);
    forall x ensures x in Touched(n.access, id) <==> x in n.access || x == id {
      TouchedMembers(n.access, id, x);
    }
  }

  lemma InitKeepsOrdered(m: Manager, id: Id, now: nat)
    requires Ordered(m)
    ensures Ordered(Initialized(m, id, now)) && id in Initialized(m, id, now).states
  {
    InitKeepsCoherent(m, id, now);
    var n := if id in m.states then m else Cleaned(Added(m, id, now));
    if id !in m.states {
      var a := Added(m, id, now);
      AddedIs(m, id, now, a);
      CleanedIs(a, n);
      forall x | x in Evicted(a) ensures !IsRunning(a.states, x) && x in a.access {
        EvictedAreIdle(a, x);
      }
      CleaningKeeps(a, Evicted(a), n);
    }
    forall x ensures x in Touched(n.access, id) <==> x in n.access || x == id {
      TouchedMembers(n.access, id, x);
    }
  }

  lemma {:induction false} WithoutSize(s: seq<Id>, gone: set<Id>)
    requires NoDuplicates(s) && forall x :: x in gone ==> x in s
    ensures |Without(s, gone)| == |s| - |gone|
  {
    var kept := Without(s, gone);
    var all := set x | x in s;
    WithoutKeepsDistinct(s, gone);
    DistinctSize(s, all);
    forall x ensures x in kept <==> x in all - gone {
      WithoutMembers(s, gone, x);
    }
    DistinctSize(kept, all - gone);
    assert all - gone + gone == all && (all - gone) !! gone;
  }

  lemma IdleCount(m: Manager, idle: set<Id>)
    requires Ordered(m) && forall x :: x in idle <==> x in m.access && !IsRunning(m.states, x)
    ensures |idle| == |m.ids| - |m.running|
  {
    var all, busy := set x | x in m.ids, set x | x in m.running;
    DistinctSize(m.ids, all);
    RunningIsDistinct(m.ids, m.states);
    DistinctSize(m.running, busy);
    forall x ensures x in busy <==> x in all && IsRunning(m.states, x) {
      RunningMembers(m.ids, m.states, x);
    }
    assert all == busy + idle && busy !! idle;
  }

  lemma EvictedCount(m: Manager, a: Manager)
    requires Ordered(m) && a.access == m.access && forall x :: IsRunning(a.states, x) <==> IsRunning(m.states, x)
    requires |a.ids| == |m.ids| + 1
    ensures |m.running| <= |m.ids|
    ensures |Evicted(a)| == if |a.ids| <= MAX_CACHED then 0
      else if |a.ids| - MAX_CACHED <= |m.ids| - |m.running| then |a.ids| - MAX_CACHED else |m.ids| - |m.running|
  {
    var idle := set x | x in m.access && !IsRunning(m.states, x);
    IdleCount(m, idle);
    IdleSize(a.access, a.states, idle);
    if |a.ids| > MAX_CACHED {
      VictimsAreEnough(a.access, a.states, |a.ids| - MAX_CACHED);
    }
  }

  lemma InitIs(m: Manager, id: Id, now: nat, a: Manager)
    requires Coherent(m) && id !in m.states && a == Added(m, id, now)
    ensures Initialized(m, id, now).ids == Without(a.ids, Evicted(a))
    ensures Initialized(m, id, now).states == a.states - Evicted(a)
  {
    CleanedIs(a, Cleaned(a));
  }

  /** The exact size after opening a new session: one more while there is room, else ten, or more only if that many
      sessions are running. */
  lemma InitSize(m: Manager, id: Id, now: nat)
    requires Ordered(m) && id !in m.states
    ensures var size, needed := |Initialized(m, id, now).ids|, |m.running| + 1;
            size == if |m.ids| < 10 then |m.ids| + 1 else if needed > 10 then needed else 10
  {
    var a := Added(m, id, now);
    AddedIs(m, id, now, a);
    InitIs(m, id, now, a);
    forall x | x in Evicted(a) ensures x in a.ids {
      EvictedAreIdle(a, x);
    }
    WithoutSize(a.ids, Evicted(a));
    EvictedCount(m, a);
  }

  lemma EvictedAreOldest(a: Manager, i: nat, j: nat)
    requires NoDuplicates(a.access) && i < |a.access| && j < |a.access| && a.access[i] in Evicted(a)
    ensures !IsRunning(a.states, a.access[i])
    ensures a.access[j] in Evicted(a) || IsRunning(a.states, a.access[j]) || i < j
  {
    EvictedAreIdle(a, a.access[i]);
    if a.access[j] !in Evicted(a) && !IsRunning(a.states, a.access[j]) {
      VictimsAreOldest(a.access, a.states, |a.ids| - MAX_CACHED, i, j);
    }
  }

  /** What is evicted was idle, and used less recently than every idle session that is kept, other than the new one; all
      that is kept is unchanged. */
  lemma InitEvicts(m: Manager, id: Id, now: nat, i: nat, j: nat)
    requires Ordered(m) && id !in m.states && i < |m.access| && j < |m.access|
    requires m.access[i] !in Initialized(m, id, now).states
    ensures !IsRunning(m.states, m.access[i])
    ensures m.access[j] in Initialized(m, id, now).states ==>
      && Initialized(m, id, now).states[m.access[j]] == m.states[m.access[j]]
      && (IsRunning(m.states, m.access[j]) || i < j)
  {
    var a := Added(m, id, now);
    AddedIs(m, id, now, a);
    InitIs(m, id, now, a);
    assert m.access[i] in m.ids && m.access[j] in m.ids;
    EvictedAreOldest(a, i, j);
  }

  // ---- Runs ----

  datatype Step =
    | Init(id: Id, now: nat)
    | GetState(id: Id)
    | Update(id: Id, updater: Session -> Session, now: nat)
    | Clear(id: Id)

  function Apply(m: Manager, step: Step): Manager {
    match step
    case Init(id, now) => Initialized(m, id, now)
    case GetState(id) => Accessed(m, id)
    case Update(id, updater, now) => Updated(m, id, updater, now)
    case Clear(id) => Cleared(m, id)
  }

  const EMPTY := Manager([], map[], [], [])

  function After(steps: seq<Step>): Manager {
    if steps == [] then EMPTY else Apply(After(steps[..|steps| - 1]), steps[|steps| - 1])
  }

  lemma AccessKeeps(m: Manager, id: Id)
    requires Coherent(m)
    ensures Coherent(Accessed(m, id)) && (Ordered(m) ==> Ordered(Accessed(m, id)))
  {
    TouchedIsDistinct(m.access, id);
    forall x ensures x in Touched(m.access, id) <==> x in m.access || x == id {
      TouchedMembers(m.access, id, x);
    }
  }

  lemma ClearKeepsCoherent(m: Manager, id: Id)
    requires Coherent(m)
    ensures Coherent(Cleared(m, id))
  {
    WithoutKeepsDistinct(m.ids, {id});
    forall x ensures x in Without(m.ids, {id}) <==> x in m.ids && x != id {
      WithoutMembers(m.ids, {id}, x);
    }
  }

  /** In every run the running list equals the running sessions of the map, in the map's order. */
  lemma {:induction false} RunIsCoherent(steps: seq<Step>)
    ensures Coherent(After(steps))
  {
    if steps != [] {
      var m, step := After(steps[..|steps| - 1]), steps[|steps| - 1];
      RunIsCoherent(steps[..|steps| - 1]);
      match step
      case Init(id, now) => InitKeepsCoherent(m, id, now);
      case GetState(id) => AccessKeeps(m, id);
      case Update(id, updater, now) =>
      case Clear(id) => ClearKeepsCoherent(m, id);
    }
  }

  /** In every run without `clearSession`, the access order is a duplicate-free ordering of the cached ids. */
  lemma {:induction false} RunIsOrdered(steps: seq<Step>)
    requires forall i :: 0 <= i < |steps| ==> !steps[i].Clear?
    ensures Ordered(After(steps))
  {
    if steps != [] {
      var m, step := After(steps[..|steps| - 1]), steps[|steps| - 1];
      RunIsOrdered(steps[..|steps| - 1]);
      match step
      case Init(id, now) => InitKeepsOrdered(m, id, now);
      case GetState(id) => AccessKeeps(m, id);
      case Update(id, updater, now) =>
    }
  }

  // ---- Recency ----

  /** The last step that opened the session, or read it while it was cached; minus one for none. */
  function LastUse(steps: seq<Step>, id: Id): int {
    if steps == [] then -1
    else
      var n, step := |steps| - 1, steps[|steps| - 1];
      if step.Init? && step.id == id then n
      else if step.GetState? && step.id == id && id in After(steps[..n]).states then n
      else LastUse(steps[..n], id)
  }

  lemma {:induction false} LastUseBound(steps: seq<Step>, id: Id)
    ensures LastUse(steps, id) < |steps|
  {
    if steps != [] {
      LastUseBound(steps[..|steps| - 1], id);
    }
  }

  ghost predicate Rising(s: seq<Id>, key: Id -> int) {
    forall i, j :: 0 <= i < j < |s| ==> key(s[i]) < key(s[j])
  }

  lemma {:induction false} RisingWithout(s: seq<Id>, gone: set<Id>, key: Id -> int)
    requires Rising(s, key)
    ensures Rising(Without(s, gone), key)
  {
    if s != [] {
      var tail := s[1..];
      assert forall i :: 0 <= i < |tail| ==> tail[i] == s[i + 1];
      RisingWithout(tail, gone, key);
      forall j | 0 <= j < |Without(tail, gone)| ensures key(s[0]) < key(Without(tail, gone)[j]) {
        WithoutMembers(tail, gone, Without(tail, gone)[j]);
      }
    }
  }

  lemma RisingTouched(s: seq<Id>, id: Id, before: Id -> int, after: Id -> int, n: int)
    requires Rising(s, before) && after(id) == n
    requires forall x :: x in s ==> before(x) < n
    requires forall x :: x != id ==> after(x) == before(x)
    ensures Rising(Touched(s, id), after)
  {
    var rest := Without(s, {id});
    RisingWithout(s, {id}, before);
    forall x | x in rest ensures x in s && x != id {
      WithoutMembers(s, {id}, x);
    }
  }

  lemma TouchStep(steps: seq<Step>, access: seq<Id>, id: Id)
    requires steps != [] && Rising(access, x => LastUse(steps[..|steps| - 1], x))
    requires LastUse(steps, id) == |steps| - 1
    requires forall x :: x != id ==> LastUse(steps, x) == LastUse(steps[..|steps| - 1], x)
    ensures Rising(Touched(access, id), x => LastUse(steps, x))
  {
    var init := steps[..|steps| - 1];
    forall x | x in access ensures LastUse(init, x) < |steps| - 1 {
      LastUseBound(init, x);
    }
    RisingTouched(access, id, x => LastUse(init, x), x => LastUse(steps, x), |steps| - 1);
  }

  /** In every run, clearing included, the access order is the order of last use. */
  lemma {:induction false} AccessOrderIsRecency(steps: seq<Step>)
    ensures Rising(After(steps).access, x => LastUse(steps, x))
  {
    if steps != [] {
      var init, step := steps[..|steps| - 1], steps[|steps| - 1];
      var m := After(init);
      AccessOrderIsRecency(init);
      match step
      case Init(id, now) =>
        var n := if id in m.states then m else Cleaned(Added(m, id, now));
        if id !in m.states {
          CleanedIs(Added(m, id, now), n);
          RisingWithout(m.access, Evicted(Added(m, id, now)), x => LastUse(init, x));
        }
        TouchStep(steps, n.access, id);
      case GetState(id) =>
        if id in m.states {
          TouchStep(steps, m.access, id);
        } else {
          RisingFrame(m.access, steps);
        }
      case Update(_, _, _) => RisingFrame(m.access, steps);
      case Clear(_) => RisingFrame(m.access, steps);
    }
  }

  lemma RisingFrame(access: seq<Id>, steps: seq<Step>)
    requires steps != [] && Rising(access, x => LastUse(steps[..|steps| - 1], x))
    requires forall x :: LastUse(steps, x) == LastUse(steps[..|steps| - 1], x)
    ensures Rising(access, x => LastUse(steps, x))
  {
    var init := steps[..|steps| - 1];
    var before, after := (x: Id) => LastUse(init, x), (x: Id) => LastUse(steps, x);
    assert forall x :: after(x) == before(x);
  }

  /** So a new session displaces, among the idle ones, those that were not used for longest. */
  lemma EvictsLeastRecentlyUsed(steps: seq<Step>, id: Id, now: nat, x: Id, y: Id)
    requires forall i :: 0 <= i < |steps| ==> !steps[i].Clear?
    requires var m := After(steps); id !in m.states && x in m.states && y in m.states
    requires x !in Initialized(After(steps), id, now).states && y in Initialized(After(steps), id, now).states
    ensures !IsRunning(After(steps).states, x)
    ensures IsRunning(After(steps).states, y) || LastUse(steps, x) < LastUse(steps, y)
  {
    var m := After(steps);
    RunIsOrdered(steps);
    AccessOrderIsRecency(steps);
    assert x in m.ids && y in m.ids;
    var i :| 0 <= i < |m.access| && m.access[i] == x;
    var j :| 0 <= j < |m.access| && m.access[j] == y;
    InitEvicts(m, id, now, i, j);
    var key := (z: Id) => LastUse(steps, z);
    assert i < j ==> key(m.access[i]) < key(m.access[j]);
  }

  // ---- Clearing ----

  /** Clearing keeps the order exact only if there was nothing to clear. */
  lemma ClearKeepsOrderedExactlyWhen(m: Manager, id: Id)
    requires Ordered(m)
    ensures Ordered(Cleared(m, id)) <==> id !in m.states
  {
    ClearKeepsCoherent(m, id);
    forall x ensures x in Without(m.ids, {id}) <==> x in m.ids && x != id {
      WithoutMembers(m.ids, {id}, x);
    }
  }

  function IdleBefore(order: seq<Id>, states: map<Id, Session>, i: nat): nat
    requires i <= |order|
  {
    if i == 0 then 0 else IdleBefore(order[1..], states, i - 1) + if IsRunning(states, order[0]) then 0 else 1
  }

  lemma {:induction false} VictimExactlyWhen(order: seq<Id>, states: map<Id, Session>, n: nat, i: nat)
    requires NoDuplicates(order) && i < |order|
    ensures order[i] in Victims(order, states, n) <==> !IsRunning(states, order[i]) && IdleBefore(order, states, i) < n
    decreases |order|
  {
    if n > 0 {
      var tail, m := order[1..], if IsRunning(states, order[0]) then n else n - 1;
      if i > 0 {
        assert order[i] == tail[i - 1];
        VictimExactlyWhen(tail, states, m, i - 1);
      } else if order[0] in Victims(tail, states, m) {
        VictimsAreIdle(tail, states, m, order[0]);
        assert false;
      }
    }
  }

  lemma StaleVictimExactlyWhen(m: Manager, a: Manager, i: nat)
    requires NoDuplicates(m.access) && i < |m.access| && a.access == m.access && !IsRunning(m.states, m.access[i])
    requires forall x :: IsRunning(a.states, x) <==> IsRunning(m.states, x)
    ensures m.access[i] in Evicted(a) <==> IdleBefore(m.access, m.states, i) < |a.ids| - MAX_CACHED
  {
    IdleFrame(m.access, m.states, a.states, i);
    if |a.ids| > MAX_CACHED {
      VictimExactlyWhen(a.access, a.states, |a.ids| - MAX_CACHED, i);
    }
  }

  /** Opening a session that was cleared before loses it at once exactly when the cache is full and too few idle entries
      precede its stale place in the order. `i` is that place. */
  lemma InitLosesExactlyWhen(m: Manager, i: nat, now: nat)
    requires Coherent(m) && i < |m.access| && m.access[i] !in m.states
    ensures m.access[i] !in Initialized(m, m.access[i], now).states
       <==> IdleBefore(m.access, m.states, i) < |m.ids| + 1 - MAX_CACHED
  {
    var id := m.access[i];
    var a := Added(m, id, now);
    AddedIs(m, id, now, a);
    InitIs(m, id, now, a);
    StaleVictimExactlyWhen(m, a, i);
  }

  lemma {:induction false} IdleFrame(order: seq<Id>, states: map<Id, Session>, states': map<Id, Session>, i: nat)
    requires i <= |order| && forall x :: IsRunning(states, x) <==> IsRunning(states', x)
    ensures IdleBefore(order, states, i) == IdleBefore(order, states', i)
    decreases i
  {
    if i > 0 {
      IdleFrame(order[1..], states, states', i - 1);
    }
  }

  /** Opening the first `n` of these sessions. */
  function Inits(ids: seq<Id>, n: nat): (steps: seq<Step>)
    requires n <= |ids|
    ensures forall i :: 0 <= i < |steps| ==> steps[i].Init?
  {
    if n == 0 then [] else Inits(ids, n - 1) + [Init(ids[n - 1], 0)]
  }

  predicate Filled(m: Manager, ids: seq<Id>) {
    m.ids == ids && m.access == ids
  }

  lemma RoomToAdd(m: Manager, id: Id)
    requires Coherent(m) && id !in m.access && |m.ids| < MAX_CACHED
    ensures Initialized(m, id, 0).ids == m.ids + [id] && Initialized(m, id, 0).access == m.access + [id]
  {
    WithoutNothing(m.access, {id});
  }

  lemma AfterAppend(steps: seq<Step>, step: Step)
    ensures After(steps + [step]) == Apply(After(steps), step)
  {
    assert (steps + [step])[..|steps|] == steps;
  }

  lemma FillStep(steps: seq<Step>, ids: seq<Id>, id: Id)
    requires Filled(After(steps), ids) && id !in ids && |ids| < MAX_CACHED
    ensures Filled(After(steps + [Init(id, 0)]), ids + [id])
  {
    RunIsCoherent(steps);
    RoomToAdd(After(steps), id);
    AfterAppend(steps, Init(id, 0));
  }

  lemma NextIsNew(ids: seq<Id>, n: nat)
    requires NoDuplicates(ids) && n < |ids|
    ensures ids[n] !in ids[..n] && ids[..n + 1] == ids[..n] + [ids[n]]
  {
  }

  /** Opening distinct sessions while there is room lists them in that order. */
  lemma {:induction false} FillRun(ids: seq<Id>, n: nat)
    requires NoDuplicates(ids) && n <= |ids| <= MAX_CACHED
    ensures Filled(After(Inits(ids, n)), ids[..n])
  {
    if n > 0 {
      FillRun(ids, n - 1);
      NextIsNew(ids, n - 1);
      FillStep(Inits(ids, n - 1), ids[..n - 1], ids[n - 1]);
    }
  }

  lemma ClearFirst(m: Manager)
    requires Ordered(m) && m.ids != [] && m.access == m.ids
    ensures Cleared(m, m.ids[0]).ids == m.ids[1..] && Cleared(m, m.ids[0]).access == m.ids
  {
    WithoutNothing(m.ids[1..], {m.ids[0]});
  }

  /** Ten sessions are opened, the first is cleared and another opened. */
  function Reopening(ids: seq<Id>, id: Id): (steps: seq<Step>)
    requires ids != []
    ensures forall i :: 0 <= i < |steps| ==> !steps[i].Update?
  {
    Inits(ids, |ids|) + [Clear(ids[0])] + [Init(id, 0)]
  }

  /** The cleared name is then still first in the order. */
  lemma ReopenState(ids: seq<Id>, id: Id)
    requires NoDuplicates(ids) && |ids| == MAX_CACHED && id !in ids
    ensures var m := After(Reopening(ids, id));
      m.ids == ids[1..] + [id] && m.access == ids + [id] && ids[0] !in m.states
  {
    var steps := Inits(ids, |ids|);
    FillRun(ids, |ids|);
    assert ids[..|ids|] == ids;
    RunIsOrdered(steps);
    var cleared := steps + [Clear(ids[0])];
    AfterAppend(steps, Clear(ids[0]));
    ClearFirst(After(steps));
    RunIsCoherent(cleared);
    AfterAppend(cleared, Init(id, 0));
    RoomToAdd(After(cleared), id);
    RunIsCoherent(cleared + [Init(id, 0)]);
    assert ids[0] !in ids[1..] + [id];
  }

  /** Such a loss is reachable: opening the first again then leaves it uncached. */
  lemma LossIsReachable(ids: seq<Id>, id: Id)
    requires NoDuplicates(ids) && |ids| == 10 && id !in ids
    ensures ids[0] !in After(Reopening(ids, id) + [Init(ids[0], 0)]).states
  {
    var full := Reopening(ids, id);
    ReopenState(ids, id);
    RunIsCoherent(full);
    AfterAppend(full, Init(ids[0], 0));
    InitLosesExactlyWhen(After(full), 0, 0);
  }

  // ---- The size when sessions are cleared ----

  lemma {:induction false} WithoutSizeOf(s: seq<Id>, gone: set<Id>, there: set<Id>)
    requires NoDuplicates(s) && forall x :: x in there <==> x in gone && x in s
    ensures |Without(s, gone)| == |s| - |there|
  {
    var kept, all := Without(s, gone), set x | x in s;
    WithoutKeepsDistinct(s, gone);
    DistinctSize(s, all);
    forall x ensures x in kept <==> x in all - there {
      WithoutMembers(s, gone, x);
    }
    DistinctSize(kept, all - there);
    assert all - there + there == all && (all - there) !! there;
  }

  /** Victims that are only names in the access order: they were cleared before. */
  function StaleVictims(a: Manager): set<Id> {
    set x | x in Evicted(a) && x !in a.states
  }

  lemma EvictedSize(m: Manager, a: Manager)
    requires NoDuplicates(m.access) && a.access == m.access
    requires forall x :: IsRunning(a.states, x) <==> IsRunning(m.states, x)
    ensures var excess, idle := |a.ids| - MAX_CACHED, IdleIn(m.access, m.states);
      |Evicted(a)| == if excess <= 0 then 0 else if excess <= idle then excess else idle
  {
    IdleInFrame(m.access, m.states, a.states);
    if |a.ids| > MAX_CACHED {
      VictimsAreEnough(a.access, a.states, |a.ids| - MAX_CACHED);
    }
  }

  lemma {:induction false} IdleInFrame(order: seq<Id>, states: map<Id, Session>, states': map<Id, Session>)
    requires forall x :: IsRunning(states, x) <==> IsRunning(states', x)
    ensures IdleIn(order, states) == IdleIn(order, states')
  {
    if order != [] {
      IdleInFrame(order[1..], states, states');
    }
  }

  lemma KeptSize(a: Manager)
    requires NoDuplicates(a.ids) && forall x :: x in a.ids <==> x in a.states
    ensures |Without(a.ids, Evicted(a))| == |a.ids| - |Evicted(a)| + |StaleVictims(a)|
  {
    var gone, stale := Evicted(a), StaleVictims(a);
    WithoutSizeOf(a.ids, gone, gone - stale);
    assert gone - stale + stale == gone && (gone - stale) !! stale;
  }

  /** The exact size after opening a new session in any state, sessions cleared before included: the excess over ten is
      evicted as far as idle entries of the access order go, but each of these that is only a name frees nothing. */
  lemma InitSizeAfterClearing(m: Manager, id: Id, now: nat)
    requires Coherent(m) && id !in m.states
    ensures var size, stale := |Initialized(m, id, now).ids|, |StaleVictims(Added(m, id, now))|;
            var excess, idle := |m.ids| + 1 - 10, IdleIn(m.access, m.states);
            size == |m.ids| + 1 + stale - if excess <= 0 then 0 else if excess <= idle then excess else idle
  {
    var a := Added(m, id, now);
    AddedIs(m, id, now, a);
    InitIs(m, id, now, a);
    KeptSize(a);
    EvictedSize(m, a);
  }

  ghost predicate AllIdle(m: Manager) {
    forall x :: !IsRunning(m.states, x)
  }

  lemma IdleStep(m: Manager, step: Step)
    requires AllIdle(m) && !step.Update?
    ensures AllIdle(Apply(m, step))
  {
    if step.Init? && step.id !in m.states {
      var a := Added(m, step.id, step.now);
      CleanedIs(a, Cleaned(a));
    }
    forall x ensures !IsRunning(Apply(m, step).states, x) {
      assert !IsRunning(m.states, x);
    }
  }

  lemma {:induction false} NothingRuns(steps: seq<Step>)
    requires forall i :: 0 <= i < |steps| ==> !steps[i].Update?
    ensures AllIdle(After(steps))
  {
    if steps != [] {
      NothingRuns(steps[..|steps| - 1]);
      IdleStep(After(steps[..|steps| - 1]), steps[|steps| - 1]);
    }
  }

  /** So the limit can be exceeded with nothing running: eleven idle sessions stay cached. */
  lemma ElevenIdleSessions(ids: seq<Id>, a: Id, b: Id)
    requires NoDuplicates(ids) && |ids| == 10 && a !in ids && b !in ids && a != b
    ensures var m := After(Reopening(ids, a) + [Init(b, 0)]); |m.ids| == 11 && AllIdle(m)
  {
    var steps := Reopening(ids, a);
    var m := After(steps);
    ReopenState(ids, a);
    RunIsCoherent(steps);
    NothingRuns(steps);
    AfterAppend(steps, Init(b, 0));
    IdleStep(m, Init(b, 0));
    OldestIsStale(m, b);
  }

  lemma OldestIsStale(m: Manager, id: Id)
    requires Coherent(m) && id !in m.access && |m.ids| == MAX_CACHED && m.access != [] && m.access[0] !in m.states
    ensures |Initialized(m, id, 0).ids| == MAX_CACHED + 1
  {
    var a := Added(m, id, 0);
    AddedIs(m, id, 0, a);
    InitIs(m, id, 0, a);
    assert Victims(a.access[1..], a.states, 0) == {};
    assert Evicted(a) == {m.access[0]};
    WithoutNothing(a.ids, Evicted(a));
  }

  // ---- The code ----

  class ConversationManager {
    var ids: seq<Id>
    var states: map<Id, Session>
    var accessOrder: seq<Id>
    var runningIdsCache: seq<Id>

    function Value(): Manager
      reads this
    {
      Manager(ids, states, accessOrder, runningIdsCache)
    }

    constructor ()
      ensures Value() == EMPTY
    {
      ids, states, accessOrder, runningIdsCache := [], map[], [], [];
    }

    method TouchSession(id: Id)
      requires NoDuplicates(accessOrder)
      modifies this`accessOrder
      ensures accessOrder == Touched(old(accessOrder), id)
    {
      var rest := RemoveFrom(accessOrder, id);
      accessOrder := rest + [id];
    }

    /** The ids to evict, oldest first. */
    method FindVictims() returns (toRemove: seq<Id>)
      requires |ids| > MAX_CACHED
      ensures (set x | x in toRemove) == Evicted(Value())
    {
      var runningIds := set id | id in states && states[id].isAIRunning;
      toRemove := [];
      var size := |ids|;
      var i := 0;
      assert accessOrder[0..] == accessOrder;
      while i < |accessOrder| && size > MAX_CACHED
        invariant 0 <= i <= |accessOrder| && MAX_CACHED <= size
        invariant Evicted(Value()) == (set x | x in toRemove) + Victims(accessOrder[i..], states, size - MAX_CACHED)
        decreases |accessOrder| - i
      {
        var id := accessOrder[i];
        assert accessOrder[i..][0] == id && accessOrder[i..][1..] == accessOrder[i + 1..];
        if id !in runningIds {
          assert (set x | x in toRemove + [id]) == (set x | x in toRemove) + {id};
          toRemove := toRemove + [id];
          size := size - 1;
        }
        i := i + 1;
      }
    }

    method EvictAll(toRemove: seq<Id>)
      requires NoDuplicates(accessOrder) && NoDuplicates(ids)
      modifies this
      ensures ids == Without(old(ids), set x | x in toRemove)
      ensures states == old(states) - (set x | x in toRemove)
      ensures accessOrder == Without(old(accessOrder), set x | x in toRemove)
      ensures runningIdsCache == old(runningIdsCache)
      ensures NoDuplicates(accessOrder) && NoDuplicates(ids)
    {
      ghost var done: set<Id> := {};
      WithoutNothing(ids, {});
      WithoutNothing(accessOrder, {});
      for k := 0 to |toRemove|
        invariant done == set x | x in toRemove[..k]
        invariant ids == Without(old(ids), done) && NoDuplicates(ids)
        invariant states == old(states) - done
        invariant accessOrder == Without(old(accessOrder), done) && NoDuplicates(accessOrder)
        invariant runningIdsCache == old(runningIdsCache)
      {
        var id := toRemove[k];
        assert toRemove[..k + 1] == toRemove[..k] + [id];
        WithoutTwice(old(ids), done, id);
        WithoutTwice(old(accessOrder), done, id);
        Evict(id);
        done := done + {id};
      }
      assert toRemove[..|toRemove|] == toRemove;
    }

    method Evict(id: Id)
      requires NoDuplicates(accessOrder) && NoDuplicates(ids)
      modifies this
      ensures ids == Without(old(ids), {id}) && accessOrder == Without(old(accessOrder), {id})
      ensures states == old(states) - {id} && runningIdsCache == old(runningIdsCache)
      ensures NoDuplicates(accessOrder) && NoDuplicates(ids)
    {
      WithoutKeepsDistinct(ids, {id});
      WithoutKeepsDistinct(accessOrder, {id});
      ids := RemoveFrom(ids, id);
      states := states - {id};
      accessOrder := RemoveFrom(accessOrder, id);
    }

    method CleanupSessions()
      requires NoDuplicates(accessOrder) && NoDuplicates(ids)
      modifies this
      ensures Value() == Cleaned(old(Value()))
      ensures NoDuplicates(accessOrder)
    {
      if |ids| <= MAX_CACHED {
        return;
      }
      CleanedIs(Value(), Cleaned(Value()));
      var toRemove := FindVictims();
      EvictAll(toRemove);
    }

    method AddSession(id: Id, now: nat)
      requires Coherent(Value()) && id !in states
      modifies this
      ensures Value() == Cleaned(Added(old(Value()), id, now)) && NoDuplicates(accessOrder)
    {
      AddedIs(Value(), id, now, Added(Value(), id, now));
      ids := ids + [id];
      states := states[id := NewSession(now)];
      CleanupSessions();
    }

    method InitSession(id: Id, now: nat) returns (session: Option<Session>)
      requires Coherent(Value())
      modifies this
      ensures Value() == Initialized(old(Value()), id, now) && Coherent(Value())
      ensures id in old(states) ==> states == old(states)
      ensures id !in old(states) && id in states ==>
        && states[id].messages == [] && !states[id].isAIRunning && !states[id].isNewConversation
        && states[id].lastUpdated == now
      ensures session == if id in states then Some(states[id]) else None
    {
      InitKeepsCoherent(Value(), id, now);
      if id !in states {
        AddSession(id, now);
      }
      TouchSession(id);
      session := if id in states then Some(states[id]) else None;
    }

    method GetSessionState(id: Id) returns (session: Option<Session>)
      requires Coherent(Value())
      modifies this`accessOrder
      ensures Value() == Accessed(old(Value()), id) && Coherent(Value())
      ensures session == if id in states then Some(states[id]) else None
    {
      AccessKeeps(Value(), id);
      if id !in states {
        return None;
      }
      TouchSession(id);
      return Some(states[id]);
    }

    /** The list is only replaced when it differs. */
    method UpdateRunningIds()
      modifies this`runningIdsCache
      ensures runningIdsCache == RunningOf(ids, states)
    {
      var running: seq<Id> := [];
      for i := 0 to |ids|
        invariant running + RunningOf(ids[i..], states) == RunningOf(ids, states)
      {
        assert ids[i..][1..] == ids[i + 1..];
        if IsRunning(states, ids[i]) {
          running := running + [ids[i]];
        }
      }
      if running != runningIdsCache {
        runningIdsCache := running;
      }
    }

    method UpdateSession(id: Id, updater: Session -> Session, now: nat)
      requires Coherent(Value())
      modifies this`states, this`runningIdsCache
      ensures Value() == Updated(old(Value()), id, updater, now) && Coherent(Value())
      ensures id !in old(states) ==> states == old(states)
      ensures id in old(states) ==>
        && id in states && states[id].lastUpdated == now
        && var next := updater(old(states)[id]);
           && states[id].messages == next.messages && states[id].isAIRunning == next.isAIRunning
           && states[id].isNewConversation == next.isNewConversation
    {
      if id in states {
        var next := updater(states[id]);
        states := states[id := next.(lastUpdated := now)];
        UpdateRunningIds();
      }
    }

    method Forget(id: Id)
      requires NoDuplicates(ids)
      modifies this`ids, this`states
      ensures ids == Without(old(ids), {id}) && states == old(states) - {id}
    {
      ids := RemoveFrom(ids, id);
      states := states - {id};
    }

    method ClearSession(id: Id)
      requires Coherent(Value())
      modifies this`ids, this`states, this`runningIdsCache
      ensures Value() == Cleared(old(Value()), id) && Coherent(Value())
    {
      ClearKeepsCoherent(Value(), id);
      Forget(id);
      UpdateRunningIds();
    }
  }

  lemma {:induction false} WithoutTwice(s: seq<Id>, gone: set<Id>, id: Id)
    ensures Without(Without(s, gone), {id}) == Without(s, gone + {id})
  {
    if s != [] {
      WithoutTwice(s[1..], gone, id);
      var rest := Without(s[1..], gone);
      if s[0] in gone {
        assert Without(s, gone) == rest;
      } else {
        assert ([s[0]] + rest)[1..] == rest;
      }
    }
  }

  /** Removes the first occurrence, which is the only one. */
  method RemoveFrom(s: seq<Id>, id: Id) returns (rest: seq<Id>)
    requires NoDuplicates(s)
    ensures rest == Without(s, {id})
  {
    var i := 0;
    while i < |s| && s[i] != id
      invariant 0 <= i <= |s| && id !in s[..i]
    {
      i := i + 1;
    }
    if i == |s| {
      assert s == s[..i];
      WithoutNothing(s, {id});
      return s;
    }
    rest := s[..i] + s[i + 1..];
    WithoutSplits(s, i, id);
  }

  lemma {:induction false} WithoutSplits(s: seq<Id>, i: nat, id: Id)
    requires NoDuplicates(s) && i < |s| && s[i] == id
    ensures Without(s, {id}) == s[..i] + s[i + 1..]
    decreases i
  {
    if i == 0 {
      WithoutNothing(s[1..], {id});
    } else {
      WithoutSplits(s[1..], i - 1, id);
      assert s[1..][..i - 1] == s[1..i] && s[1..][i..] == s[i + 1..];
    }
  }
}
