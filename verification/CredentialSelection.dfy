/**
 * Choosing, for each host of a collection, the one credential to try first. The cache is read at one moment: nothing
 * changes it while a selection is under way.
 */
module CredentialSelection {
  import opened Json
  import opened CredentialCache

  /** A task to queue; `credential` is `None` when it names none, `index` its place in the pool. */
  datatype Task = Task(host: string, credential: Option<string>, index: Option<nat>)

  datatype Group = Group(host: string, candidates: seq<Task>)

  // ---- Candidates ----

  function TaskFor(own: Option<string>, pool: seq<Option<string>>, host: string, i: nat): Task
    requires i < |pool|
  {
    Task(host, if pool[i].Some? then pool[i] else own, Some(i))
  }

  /** `own` is the request's own credential id; a pool entry without one leaves it in place. */
  function CandidatesFor(own: Option<string>, pool: seq<Option<string>>, host: string): seq<Task> {
    if pool == [] then [Task(host, own, None)]
    else seq(|pool|, i requires 0 <= i < |pool| => TaskFor(own, pool, host, i))
  }

  predicate Listed(groups: seq<Group>, host: string) {
    exists g :: 0 <= g < |groups| && groups[g].host == host
  }

  predicate Distinct(groups: seq<Group>) {
    forall g, h :: 0 <= g < h < |groups| ==> groups[g].host != groups[h].host
  }

  function HostsOf(groups: seq<Group>): seq<string> {
    seq(|groups|, g requires 0 <= g < |groups| => groups[g].host)
  }

  /** Each host at the place of its first mention. */
  function FirstMentions(hosts: seq<string>): seq<string> {
    if hosts == [] then []
    else
      var before, host := FirstMentions(hosts[..|hosts| - 1]), hosts[|hosts| - 1];
      if host in before then before else before + [host]
  }

  lemma {:induction false} MentionsAreDistinct(hosts: seq<string>)
    ensures forall host :: host in FirstMentions(hosts) <==> host in hosts
    ensures forall g, h :: 0 <= g < h < |FirstMentions(hosts)| ==> FirstMentions(hosts)[g] != FirstMentions(hosts)[h]
  {
    if hosts != [] {
      MentionsAreDistinct(hosts[..|hosts| - 1]);
      assert hosts == hosts[..|hosts| - 1] + [hosts[|hosts| - 1]];
    }
  }

  method FindGroup(groups: seq<Group>, host: string) returns (g: nat)
    ensures g <= |groups| && (g < |groups| ==> groups[g].host == host)
    ensures g == |groups| <==> host !in HostsOf(groups)
  {
    g := 0;
    while g < |groups| && groups[g].host != host
      invariant g <= |groups| && forall k :: 0 <= k < g ==> groups[k].host != host
    {
      g := g + 1;
    }
    assert g < |groups| ==> HostsOf(groups)[g] == host;
  }

  /** A dictionary keeps the place of a key's first assignment: one group per host, in the order of their first mention,
      each with a candidate per pool entry. */
  method BuildCandidates(
    own: Option<string>, hosts: seq<string>, pool: seq<Option<string>>) returns (groups: seq<Group>)
    ensures HostsOf(groups) == FirstMentions(hosts)
    ensures Distinct(groups)
    ensures forall g :: 0 <= g < |groups| ==> groups[g].candidates == CandidatesFor(own, pool, groups[g].host)
  {
    groups := [];
    for x := 0 to |hosts|
      invariant HostsOf(groups) == FirstMentions(hosts[..x])
      invariant forall g :: 0 <= g < |groups| ==> groups[g].candidates == CandidatesFor(own, pool, groups[g].host)
    {
      var host := hosts[x];
      assert hosts[..x + 1][..x] == hosts[..x];
      var g := FindGroup(groups, host);
      var group := Group(host, CandidatesFor(own, pool, host));
      if g < |groups| {
        assert HostsOf(groups[g := group]) == HostsOf(groups);
        groups := groups[g := group];
      } else {
        assert HostsOf(groups + [group]) == HostsOf(groups) + [host];
        groups := groups + [group];
      }
    }
    assert hosts[..|hosts|] == hosts;
    MentionsAreDistinct(hosts);
    assert forall g :: 0 <= g < |groups| ==> groups[g].host == HostsOf(groups)[g];
  }

  // ---- One host ----

  /** The mentions are the hosts that were not mentioned before, in the order given. */
  lemma {:induction false} MentionsAreFirst(hosts: seq<string>, i: nat)
    requires i <= |hosts|
    ensures |FirstMentions(hosts[..i])| <= |FirstMentions(hosts)|
    ensures FirstMentions(hosts)[..|FirstMentions(hosts[..i])|] == FirstMentions(hosts[..i])
    ensures i < |hosts| && hosts[i] !in hosts[..i] ==>
      && |FirstMentions(hosts[..i])| < |FirstMentions(hosts)|
      && FirstMentions(hosts)[|FirstMentions(hosts[..i])|] == hosts[i]
    ensures forall host :: host in hosts <==> host in FirstMentions(hosts)
    decreases |hosts|
  {
    if hosts != [] {
      var n := |hosts| - 1;
      if i == |hosts| {
        assert hosts[..i] == hosts;
        MentionsAreFirst(hosts[..n], n);
      } else {
        assert hosts[..n][..i] == hosts[..i];
        MentionsAreFirst(hosts[..n], i);
        if i < n {
          assert hosts[..n][i] == hosts[i];
        }
      }
      assert hosts == hosts[..n] + [hosts[n]];
    }
  }

  predicate HasId(t: Task) {
    t.credential.Some? && t.credential.value != ""
  }

  /** The cache as a selection for one collection task sees it. Without a task id or a host name nothing is looked up.
      */
  datatype Cache = Cache(redis: Redis, task: string, now: nat)

  function LastSuccess(c: Cache, host: string): string {
    if c.task == "" || host == "" then "" else SuccessCredential(c.redis, c.task, host, c.now)
  }

  predicate IsCooled(c: Cache, host: string, credential: string) {
    c.task != "" && host != "" && Cooled(c.redis, c.task, host, credential, c.now)
  }

  predicate TaskCooled(c: Cache, host: string, t: Task) {
    t.credential.Some? && IsCooled(c, host, t.credential.value)
  }

  /** What a host gets: a candidate, nothing, or an error (looking up a candidate that has no credential id, after one
      that has, yields the last success where a failure record is expected). */
  datatype Pick = Chosen(i: nat) | Skipped | Raised

  /** The first candidate from `i` on with this credential. */
  function FirstNamed(candidates: seq<Task>, credential: string, i: nat): Option<nat>
    requires i <= |candidates|
    decreases |candidates| - i
  {
    if i == |candidates| then None
    else if candidates[i].credential == Some(credential) then Some(i)
    else FirstNamed(candidates, credential, i + 1)
  }

  /** The first candidate from `i` on that is not cooled. */
  function FirstReady(c: Cache, host: string, candidates: seq<Task>, i: nat): Option<nat>
    requires i <= |candidates|
    decreases |candidates| - i
  {
    if i == |candidates| then None
    else if !TaskCooled(c, host, candidates[i]) then Some(i)
    else FirstReady(c, host, candidates, i + 1)
  }

  function FallbackFor(c: Cache, g: Group, ready: Option<nat>): Pick
    requires ready.Some? ==> ready.value < |g.candidates|
  {
    if ready.None? then Skipped
    else if g.candidates[ready.value].credential.None? && LastSuccess(c, g.host) != "" then Raised
    else Chosen(ready.value)
  }

  function PickFor(c: Cache, g: Group): (p: Pick)
    ensures p.Chosen? ==> p.i < |g.candidates|
  {
    if g.candidates == [] then Skipped
    else if !HasId(g.candidates[0]) then Chosen(0)
    else
      var success := LastSuccess(c, g.host);
      var named := FirstNamed(g.candidates, success, 0);
      FirstNamedBounds(g.candidates, success, 0);
      FirstReadyBounds(c, g.host, g.candidates, 0);
      if success != "" && named.Some? && !IsCooled(c, g.host, success) then Chosen(named.value)
      else FallbackFor(c, g, FirstReady(c, g.host, g.candidates, 0))
  }

  lemma {:induction false} FirstNamedBounds(candidates: seq<Task>, credential: string, i: nat)
    requires i <= |candidates|
    ensures match FirstNamed(candidates, credential, i)
            case Some(n) =>
              && i <= n < |candidates| && candidates[n].credential == Some(credential)
              && forall j :: i <= j < n ==> candidates[j].credential != Some(credential)
            case None => forall j :: i <= j < |candidates| ==> candidates[j].credential != Some(credential)
    decreases |candidates| - i
  {
    if i < |candidates| && candidates[i].credential != Some(credential) {
      FirstNamedBounds(candidates, credential, i + 1);
    }
  }

  lemma {:induction false} FirstReadyBounds(c: Cache, host: string, candidates: seq<Task>, i: nat)
    requires i <= |candidates|
    ensures match FirstReady(c, host, candidates, i)
            case Some(n) =>
              && i <= n < |candidates| && !TaskCooled(c, host, candidates[n])
              && forall j :: i <= j < n ==> TaskCooled(c, host, candidates[j])
            case None => forall j :: i <= j < |candidates| ==> TaskCooled(c, host, candidates[j])
    decreases |candidates| - i
  {
    if i < |candidates| && TaskCooled(c, host, candidates[i]) {
      FirstReadyBounds(c, host, candidates, i + 1);
    }
  }

  method SelectForHost(c: Cache, g: Group) returns (pick: Pick)
    ensures pick == PickFor(c, g)
  {
    var n := |g.candidates|;
    if n == 0 {
      return Skipped;
    }
    if !HasId(g.candidates[0]) {
      return Chosen(0);
    }
    var success := LastSuccess(c, g.host);
    if success != "" {
      var i := 0;
      while i < n && g.candidates[i].credential != Some(success)
        invariant 0 <= i <= n && FirstNamed(g.candidates, success, i) == FirstNamed(g.candidates, success, 0)
      {
        i := i + 1;
      }
      if i < n && !IsCooled(c, g.host, success) {
        return Chosen(i);
      }
    }
    for i := 0 to n
      invariant FirstReady(c, g.host, g.candidates, i) == FirstReady(c, g.host, g.candidates, 0)
    {
      if g.candidates[i].credential.None? && success != "" {
        return Raised;
      }
      if !TaskCooled(c, g.host, g.candidates[i]) {
        return Chosen(i);
      }
    }
    return Skipped;
  }

  // ---- What the choice is ----

  predicate AllHaveIds(candidates: seq<Task>) {
    forall i :: 0 <= i < |candidates| ==> HasId(candidates[i])
  }

  predicate Pooled(candidates: seq<Task>, credential: string) {
    exists i :: 0 <= i < |candidates| && candidates[i].credential == Some(credential)
  }

  predicate AllCooled(c: Cache, g: Group) {
    forall i :: 0 <= i < |g.candidates| ==> TaskCooled(c, g.host, g.candidates[i])
  }

  /** With credential ids everywhere: nothing raises, a host is passed over exactly when all its credentials are cooled,
      and what is chosen is never cooled. */
  lemma ChoiceIsNotCooled(c: Cache, g: Group)
    requires AllHaveIds(g.candidates)
    ensures !PickFor(c, g).Raised?
    ensures PickFor(c, g).Skipped? <==> AllCooled(c, g)
    ensures PickFor(c, g).Chosen? ==> !TaskCooled(c, g.host, g.candidates[PickFor(c, g).i])
  {
    FirstNamedBounds(g.candidates, LastSuccess(c, g.host), 0);
    FirstReadyBounds(c, g.host, g.candidates, 0);
  }

  /** What worked last is chosen exactly if it is pooled and not cooled (or is the first that is not cooled anyway). */
  lemma SuccessIsPreferred(c: Cache, g: Group, credential: string)
    requires AllHaveIds(g.candidates) && Pooled(g.candidates, credential) && LastSuccess(c, g.host) == credential
    ensures !IsCooled(c, g.host, credential) <==>
      PickFor(c, g).Chosen? && g.candidates[PickFor(c, g).i].credential == Some(credential)
  {
    FirstNamedBounds(g.candidates, credential, 0);
    FirstReadyBounds(c, g.host, g.candidates, 0);
  }

  /** Otherwise the pool's order decides: every candidate before the chosen one is cooled. */
  lemma OrderDecides(c: Cache, g: Group, j: nat)
    requires AllHaveIds(g.candidates) && PickFor(c, g).Chosen? && j < PickFor(c, g).i
    requires g.candidates[PickFor(c, g).i].credential != Some(LastSuccess(c, g.host))
    ensures TaskCooled(c, g.host, g.candidates[j])
  {
    FirstNamedBounds(g.candidates, LastSuccess(c, g.host), 0);
    FirstReadyBounds(c, g.host, g.candidates, 0);
  }

  /** A first candidate without a credential id is taken as it is. */
  lemma UnnamedIsTaken(c: Cache, g: Group)
    requires g.candidates != []
    requires g.candidates[0].credential.None? || g.candidates[0].credential == Some("")
    ensures PickFor(c, g) == Chosen(0)
  {
  }

  /** An error exactly if the first candidate has an id, what worked last is of no use, and the first candidate that is
      not cooled has no id while something worked last. */
  lemma RaisesExactlyWhen(c: Cache, g: Group)
    ensures PickFor(c, g).Raised? <==>
      && g.candidates != [] && HasId(g.candidates[0])
      && LastSuccess(c, g.host) != ""
      && !(Pooled(g.candidates, LastSuccess(c, g.host)) && !IsCooled(c, g.host, LastSuccess(c, g.host)))
      && exists i :: 0 <= i < |g.candidates| && g.candidates[i].credential.None?
           && forall j :: 0 <= j < i ==> TaskCooled(c, g.host, g.candidates[j])
  {
    FirstNamedBounds(g.candidates, LastSuccess(c, g.host), 0);
    FirstReadyBounds(c, g.host, g.candidates, 0);
    var ready := FirstReady(c, g.host, g.candidates, 0);
    if ready.Some? {
      assert !TaskCooled(c, g.host, g.candidates[ready.value]);
    }
  }

  /** Without a task id or a host name nothing is looked up, so the first candidate is taken. */
  lemma NothingLookedUp(c: Cache, g: Group)
    requires g.candidates != [] && (c.task == "" || g.host == "")
    ensures PickFor(c, g) == Chosen(0)
  {
  }

  /** The candidates of a host: the request itself without a pool, else one per pool entry in its order, with the
      entry's credential id or, where it has none, the request's own. */
  lemma CandidatesAre(own: Option<string>, pool: seq<Option<string>>, host: string, i: nat)
    ensures var tasks := CandidatesFor(own, pool, host);
      && (pool == [] ==> tasks == [Task(host, own, None)])
      && (pool != [] ==> |tasks| == |pool|)
      && (i < |pool| ==> tasks[i] == Task(host, if pool[i].Some? then pool[i] else own, Some(i)))
  {
  }

  // ---- All hosts ----

  function Selection(c: Cache, groups: seq<Group>): Option<seq<Task>> {
    if groups == [] then Some([])
    else
      var g, before := groups[|groups| - 1], Selection(c, groups[..|groups| - 1]);
      if before.None? then None
      else
        match PickFor(c, g)
        case Chosen(i) => Some(before.value + [g.candidates[i]])
        case Skipped => before
        case Raised => None
  }

  lemma {:induction false} RaisedEndsAll(c: Cache, groups: seq<Group>, x: nat)
    requires x <= |groups| && Selection(c, groups[..x]).None?
    ensures Selection(c, groups).None?
    decreases |groups| - x
  {
    if x < |groups| {
      assert groups[..x + 1][..x] == groups[..x];
      RaisedEndsAll(c, groups, x + 1);
    } else {
      assert groups[..x] == groups;
    }
  }

  method SelectCandidates(c: Cache, groups: seq<Group>) returns (tasks: Option<seq<Task>>)
    ensures tasks == Selection(c, groups)
  {
    var selected: seq<Task> := [];
    for x := 0 to |groups|
      invariant Selection(c, groups[..x]) == Some(selected)
    {
      assert groups[..x + 1][..x] == groups[..x];
      var pick := SelectForHost(c, groups[x]);
      match pick
      case Chosen(i) => selected := selected + [groups[x].candidates[i]];
      case Skipped =>
      case Raised =>
        RaisedEndsAll(c, groups, x + 1);
        return None;
    }
    assert groups[..|groups|] == groups;
    return Some(selected);
  }

  /** The picks come in the order of the groups: what is chosen for the first groups comes first. */
  lemma {:induction false} SelectionKeepsOrder(c: Cache, groups: seq<Group>, x: nat)
    requires x < |groups| && Selection(c, groups).Some?
    ensures Selection(c, groups[..x]).Some? && Selection(c, groups[..x]).value <= Selection(c, groups).value
    ensures PickFor(c, groups[x]).Chosen? ==>
      var n := |Selection(c, groups[..x]).value|;
      && n < |Selection(c, groups).value|
      && Selection(c, groups).value[n] == groups[x].candidates[PickFor(c, groups[x]).i]
    decreases |groups|
  {
    var n := |groups| - 1;
    if x < n {
      assert groups[..n][..x] == groups[..x] && groups[..n][x] == groups[x];
      SelectionKeepsOrder(c, groups[..n], x);
    }
  }

  predicate WellGrouped(groups: seq<Group>) {
    && Distinct(groups)
    && forall g, i :: 0 <= g < |groups| && 0 <= i < |groups[g].candidates| ==>
         groups[g].candidates[i].host == groups[g].host && HasId(groups[g].candidates[i])
  }

  /** The tasks chosen for one host. */
  function For(tasks: seq<Task>, host: string): seq<Task> {
    if tasks == [] then []
    else For(tasks[..|tasks| - 1], host) + if tasks[|tasks| - 1].host == host then [tasks[|tasks| - 1]] else []
  }

  /** Nothing is chosen for a host that is not listed. */
  lemma {:induction false} OnlyListed(c: Cache, groups: seq<Group>, host: string)
    requires WellGrouped(groups) && !Listed(groups, host)
    ensures Selection(c, groups).Some? && For(Selection(c, groups).value, host) == []
  {
    if groups != [] {
      var init, g := groups[..|groups| - 1], groups[|groups| - 1];
      assert forall k :: 0 <= k < |init| ==> init[k] == groups[k];
      assert groups[|groups| - 1].host != host;
      OnlyListed(c, init, host);
      assert AllHaveIds(g.candidates);
      ChoiceIsNotCooled(c, g);
      if PickFor(c, g).Chosen? {
        var before := Selection(c, init).value;
        assert (before + [g.candidates[PickFor(c, g).i]])[..|before|] == before;
      }
    }
  }

  /** Each listed host gets exactly the task its own candidates lead to: one, or none when all are cooled. */
  lemma {:induction false} OneTaskPerHost(c: Cache, groups: seq<Group>, x: nat)
    requires WellGrouped(groups) && x < |groups|
    ensures var g := groups[x];
            && Selection(c, groups).Some?
            && (AllCooled(c, g) ==> For(Selection(c, groups).value, g.host) == [])
            && (!AllCooled(c, g) ==>
                  && PickFor(c, g).Chosen?
                  && For(Selection(c, groups).value, g.host) == [g.candidates[PickFor(c, g).i]])
    decreases |groups|
  {
    var init, g := groups[..|groups| - 1], groups[|groups| - 1];
    assert forall k :: 0 <= k < |init| ==> init[k] == groups[k];
    assert AllHaveIds(g.candidates);
    ChoiceIsNotCooled(c, g);
    var host := groups[x].host;
    if x == |groups| - 1 {
      OnlyListed(c, init, host);
    } else {
      OneTaskPerHost(c, init, x);
      assert init[x] == groups[x];
    }
    if PickFor(c, g).Chosen? {
      var before := Selection(c, init).value;
      assert (before + [g.candidates[PickFor(c, g).i]])[..|before|] == before;
    }
  }

  // ---- From marks to choices ----

  /** A credential that worked is the one chosen for that host for seven days, if it is in the pool, whatever happens
      elsewhere; until it fails, something else works there, or the record is cleared. */
  lemma {:induction false} ChosenAfterSuccess(
    redis: Redis, ok: Op, at: nat, ops: seq<Timed>, c: Cache, groups: seq<Group>, x: nat)
    requires ok.MarkSuccess? && Plain(ok) && ok.task != "" && ok.host != "" && ok.credential != ""
    requires forall k :: 0 <= k < |ops| ==>
      && Plain(ops[k].op) && !TouchesSuccess(ops[k].op, ok.task, ok.host)
      && !TouchesFailure(ops[k].op, ok.task, ok.host, ok.credential)
    requires c.redis == After(Applied(redis, ok, at), ops) && c.task == ok.task && c.now < at + SUCCESS_TTL
    requires WellGrouped(groups) && x < |groups| && groups[x].host == ok.host
    requires Pooled(groups[x].candidates, ok.credential)
    ensures Selection(c, groups).Some?
    ensures var mine := For(Selection(c, groups).value, ok.host);
            |mine| == 1 && mine[0].credential == Some(ok.credential)
  {
    var g := groups[x];
    assert AllHaveIds(g.candidates);
    SuccessLasts(redis, ok, at, ops, c.now);
    CooldownEnds(redis, ok, at, ops, ok.credential);
    SuccessIsPreferred(c, g, ok.credential);
    OneTaskPerHost(c, groups, x);
    ChoiceIsNotCooled(c, g);
  }

  /** A credential that failed is not chosen for that host before its cooldown is over, whatever happens elsewhere;
      until something works there or it fails again. */
  lemma {:induction false} NotChosenAfterFailure(
    redis: Redis, failed: Op, at: nat, ops: seq<Timed>, c: Cache, groups: seq<Group>, x: nat)
    requires failed.MarkFailure? && Plain(failed) && failed.task != "" && failed.host != ""
    requires forall k :: 0 <= k < |ops| ==>
      Plain(ops[k].op) && !TouchesFailure(ops[k].op, failed.task, failed.host, failed.credential)
    requires c.redis == After(Applied(redis, failed, at), ops) && c.task == failed.task
    requires c.now < at + CooldownSeconds(failed.level)
    requires WellGrouped(groups) && x < |groups| && groups[x].host == failed.host
    ensures Selection(c, groups).Some?
    ensures var mine := For(Selection(c, groups).value, failed.host);
            mine == [] || (|mine| == 1 && mine[0].credential != Some(failed.credential))
  {
    var g := groups[x];
    assert AllHaveIds(g.candidates);
    CooldownLasts(redis, failed, at, ops, c.now);
    OneTaskPerHost(c, groups, x);
    ChoiceIsNotCooled(c, g);
  }
}
