/** Any number of connectors creating and deleting accounts at once: each call
    goes through its client's token life cycle and each request is one atomic
    step of the server (pkg/connector/user.go, pkg/connector/userAccount.go,
    pkg/jamf/client.go, test-server/main.go). */
module Provisioning {
  import opened Wrappers
  import opened GoInt
  import opened Models
  import opened EntityStore
  import opened Server
  import C = JamfClient

  // ---- Requests, as the client sends them and the server answers them ----

  datatype Request<B> = PostRequest(body: Body<B>) | GetRequest(name: string) | DeleteRequest(id: Int)

  function Serve<B>(serverToken: string, bearer: string, s: Store<B>, req: Request<B>): (Store<B>, Reply<B>) {
    match req
    case PostRequest(body) => HandleByID(bearer == serverToken, s, Itoa(0), POST(Some(body)))
    case DeleteRequest(id) => HandleByID(bearer == serverToken, s, Itoa(id), DELETE)
    case GetRequest(name) => (s, HandleByName(bearer == serverToken, s, name, true))
  }

  function ToResult<B>(reply: Reply<B>): Result<Reply<B>, C.Code> {
    match reply
    case OK => Ok(reply)
    case Found(_) => Ok(reply)
    case Created(_) => Ok(reply)
    case Unauthorized => Err(C.Unauthenticated)
    case NotFound => Err(C.NotFound)
    case Conflict => Err(C.AlreadyExists)
    case BadRequest => Err(C.OtherCode)
    case MethodNotAllowed => Err(C.OtherCode)
  }

  // ---- Provisioners ----

  /** CreateAccount with a login and the body made from its profile, or Delete
      of a resource id. */
  datatype Goal<B> = Create(body: Body<B>) | Remove(resource: string)

  datatype Outcome<B> =
    | Success(record: Record<B>)
    | AlreadyExisted(record: Record<B>)
    | Deleted
    | Failed

  /** The call in progress: the one that changes the store, or the fetch by
      name that follows a creation. */
  datatype Stage<B> =
    | Changing(phase: C.Phase)
    | Fetching(alreadyExists: bool, phase: C.Phase)
    | Done(outcome: Outcome<B>)

  datatype Provisioner<B> = Provisioner(goal: Goal<B>, client: C.ClientState, stage: Stage<B>)

  /** requireLogin, and Delete's parse of the resource id. */
  function StartStage<B>(goal: Goal<B>): Stage<B> {
    match goal
    case Create(body) => if body.name == "" then Done(Failed) else Changing(C.Check)
    case Remove(resource) => if Atoi(resource).None? then Done(Failed) else Changing(C.Check)
  }

  /** The id a Delete asks for. */
  function Target<B>(goal: Goal<B>): Option<Int> {
    if goal.Remove? then Atoi(goal.resource) else None
  }

  function RequestOf<B>(goal: Goal<B>, stage: Stage<B>): Request<B> {
    match goal
    case Create(body) => if stage.Fetching? then GetRequest(body.name) else PostRequest(body)
    case Remove(_) => DeleteRequest(if Target(goal).Some? then Target(goal).value else 0)
  }

  /** What CreateAccount and Delete do with a call's result. */
  function AfterCall<B>(goal: Goal<B>, stage: Stage<B>, r: Result<Reply<B>, C.Code>): Stage<B> {
    if stage.Fetching? then
      if r.Ok? && r.value.Found?
      then Done(if stage.alreadyExists then AlreadyExisted(r.value.record) else Success(r.value.record))
      else Done(Failed)
    else if goal.Create? then
      if r.Ok? then Fetching(false, C.Check)
      else if r.error == C.AlreadyExists then Fetching(true, C.Check)
      else Done(Failed)
    else if r.Ok? || r.error == C.NotFound then Done(Deleted)
    else Done(Failed)
  }

  // ---- The world ----

  /** A change of the store, and whose request made it. */
  datatype Effect<B> = Creation(actor: nat, record: Record<B>) | Removal(actor: nat, record: Record<B>)

  datatype World<B> = World(token: string, store: Store<B>, provisioners: seq<Provisioner<B>>, log: seq<Effect<B>>)

  /** The next step of one provisioner, at a time and with or without a fault
      that keeps its request from the server; or a change of the token the
      server accepts. */
  datatype Action = Act(i: nat, before: int, after: int, fault: bool) | Rotate(token: string)

  function NetOf<B>(w: World<B>, req: Request<B>, before: int, after: int, fault: bool): C.Net<Reply<B>> {
    C.Net(before, after,
          (bearer: string) =>
            if fault then Err(C.OtherCode) else if bearer == w.token then Ok(w.token) else Err(C.Unauthenticated),
          (bearer: string) =>
            if fault then Err(C.OtherCode) else ToResult(Serve(w.token, bearer, w.store, req).1),
          if fault then Err(C.OtherCode) else Ok(w.token))
  }

  function EffectOf<B>(i: nat, s: Store<B>, req: Request<B>, reply: Reply<B>): seq<Effect<B>> {
    match (req, reply)
    case (PostRequest(body), Created(id)) => [Creation(i, Record(id, body.name, body.info))]
    case (DeleteRequest(id), OK) => if id in s.byID then [Removal(i, s.byID[id])] else []
    case _ => []
  }

  function Step<B>(w: World<B>, a: Action): World<B> {
    match a
    case Rotate(token) => w.(token := token)
    case Act(i, before, after, fault) =>
      if i >= |w.provisioners| || w.provisioners[i].stage.Done? then w
      else
        var p := w.provisioners[i];
        var req := RequestOf(p.goal, p.stage);
        var (store, reply) :=
          if p.stage.phase.Send? && !fault then Serve(w.token, p.client.token, w.store, req)
          else (w.store, Unauthorized);
        var p' := match C.Next(p.client, p.stage.phase, NetOf(w, req, before, after, fault))
                  case Going(c, phase) => p.(client := c, stage := p.stage.(phase := phase))
                  case Finished(c, r) => p.(client := c, stage := AfterCall(p.goal, p.stage, r));
        World(w.token, store, w.provisioners[i := p'], w.log + EffectOf(i, w.store, req, reply))
  }

  function Steps<B>(w: World<B>, actions: seq<Action>): World<B>
    decreases |actions|
  {
    if actions == [] then w else Steps(Step(w, actions[0]), actions[1..])
  }

  ghost predicate Starts<B(!new)>(w: World<B>) {
    Valid(w.store) && w.log == []
    && forall i :: 0 <= i < |w.provisioners| ==> w.provisioners[i].stage == StartStage(w.provisioners[i].goal)
  }

  // ---- What one step does ----

  /** A step that leaves the store alone: where it can take the provisioner. */
  ghost predicate QuietMove<B>(goal: Goal<B>, s: Store<B>, from: Stage<B>, to: Stage<B>) {
    match from
    case Done(_) => to == from
    case Changing(_) =>
      to.Changing? || to == Done(Failed)
      || (Target(goal).Some? && Target(goal).value !in s.byID && to == Done(Deleted))
      || (goal.Create? && to == Fetching(true, C.Check) && FindByName(s.list, goal.body.name).Some?)
    case Fetching(dup, _) =>
      (to.Fetching? && to.alreadyExists == dup) || to == Done(Failed)
      || (goal.Create? && FindByName(s.list, goal.body.name).Some?
          && var r := FindByName(s.list, goal.body.name).value;
             to == Done(if dup then AlreadyExisted(r) else Success(r)))
  }

  /** Everything a step can do: nothing to the store, or exactly the creation or
      the removal its own goal asks for, by the provisioner that acts. A Delete
      that ends without a removal found its id absent. */
  ghost predicate StepIs<B(!new)>(w: World<B>, t: World<B>, i: nat) {
    && i < |w.provisioners| == |t.provisioners|
    && (forall j :: 0 <= j < |w.provisioners| && j != i ==> t.provisioners[j] == w.provisioners[j])
    && var p, q := w.provisioners[i], t.provisioners[i];
    && q.goal == p.goal
    && (|| (t.store == w.store && t.log == w.log && QuietMove(p.goal, w.store, p.stage, q.stage))
        || (p.goal.Create? && p.stage.Changing? && q.stage == Fetching(false, C.Check)
            && var body := p.goal.body;
               && FindByName(w.store.list, body.name).None?
               && t.store == Apply(w.store, Post(body.name, body.info))
               && t.log == w.log + [Creation(i, Record(w.store.nextID + 1, body.name, body.info))])
        || (Target(p.goal).Some? && p.stage.Changing? && q.stage == Done(Deleted)
            && var id := Target(p.goal).value;
               && id in w.store.byID
               && t.store == Apply(w.store, Delete(id))
               && t.log == w.log + [Removal(i, w.store.byID[id])]))
  }

  /** Only creators fetch, only deleters end as Deleted, and only an id that
      parses is asked to be deleted. */
  predicate FitsGoal<B(==)>(p: Provisioner<B>) {
    if p.goal.Create? then p.stage != Done(Deleted)
    else !p.stage.Fetching? && (p.stage.Changing? ==> Target(p.goal).Some?)
         && (p.stage.Done? ==> p.stage.outcome.Deleted? || p.stage.outcome.Failed?)
  }

  ghost predicate Fits<B(!new)>(w: World<B>) {
    forall i :: 0 <= i < |w.provisioners| ==> FitsGoal(w.provisioners[i])
  }

  /** The number in a request's path is read back by the server. */
  lemma PathsParse<B>(req: Request<B>)
    ensures Atoi(Itoa(0)) == Some(0)
    ensures req.DeleteRequest? ==> Atoi(Itoa(req.id)) == Some(req.id)
  {
    AtoiOfItoa(0);
    if req.DeleteRequest? {
      AtoiOfItoa(req.id);
    }
  }

  /** A step that does not reach the server changes nothing there. */
  lemma StepWithoutRequest<B(!new)>(w: World<B>, i: nat, before: int, after: int, fault: bool)
    requires i < |w.provisioners| && FitsGoal(w.provisioners[i])
    requires w.provisioners[i].stage.Done? || !w.provisioners[i].stage.phase.Send? || fault
    ensures StepIs(w, Step(w, Act(i, before, after, fault)), i)
  {
    hide Serve, Atoi, FindByName, Apply;
  }

  lemma StepWithRequest<B(!new)>(w: World<B>, i: nat, before: int, after: int)
    requires i < |w.provisioners| && FitsGoal(w.provisioners[i])
    requires !w.provisioners[i].stage.Done? && w.provisioners[i].stage.phase.Send?
    ensures StepIs(w, Step(w, Act(i, before, after, false)), i)
  {
    var p := w.provisioners[i];
    PathsParse(RequestOf(p.goal, p.stage));
    hide Itoa, Atoi, FindByName, Without;
  }

  lemma EveryStepIsOneMove<B(!new)>(w: World<B>, i: nat, before: int, after: int, fault: bool)
    requires i < |w.provisioners| && Fits(w)
    ensures StepIs(w, Step(w, Act(i, before, after, fault)), i)
  {
    hide Step, StepIs, FitsGoal;
    assert FitsGoal(w.provisioners[i]);
    var p := w.provisioners[i];
    if p.stage.Done? || !p.stage.phase.Send? || fault {
      StepWithoutRequest(w, i, before, after, fault);
    } else {
      StepWithRequest(w, i, before, after);
    }
  }

  // ---- Invariants of every run ----

  function Sign<B>(e: Effect<B>, name: string): int {
    if e.record.name != name then 0 else if e.Creation? then 1 else -1
  }

  /** Creations of a name less removals of it. */
  function Balance<B>(log: seq<Effect<B>>, name: string): int {
    if log == [] then 0 else Balance(log[..|log| - 1], name) + Sign(log[|log| - 1], name)
  }

  /** A provisioner that created a record created what its goal says, and is
      fetching it, or succeeded, or failed to fetch it; one that removed a
      record removed the one its goal names, and is done. */
  ghost predicate EntryFits<B>(w: World<B>, e: Effect<B>) {
    e.actor < |w.provisioners| &&
    var p := w.provisioners[e.actor];
    if e.Creation?
    then p.goal.Create? && e.record.name == p.goal.body.name && e.record.info == p.goal.body.info
         && ((p.stage.Fetching? && !p.stage.alreadyExists)
             || (p.stage.Done? && (p.stage.outcome.Success? || p.stage.outcome.Failed?)))
    else Target(p.goal) == Some(e.record.id) && p.stage == Done(Deleted)
  }

  ghost predicate LogFits<B(!new)>(w: World<B>) {
    && (forall k :: 0 <= k < |w.log| ==> EntryFits(w, w.log[k]))
    && (forall k, l :: 0 <= k < l < |w.log| ==> w.log[k].actor != w.log[l].actor)
  }

  /** A provisioner that holds a success, or is about to fetch one, is on the log. */
  ghost predicate SuccessIsLogged<B(!new)>(w: World<B>) {
    forall i :: 0 <= i < |w.provisioners| && HoldsSuccess(w.provisioners[i].stage) ==>
      exists k :: 0 <= k < |w.log| && w.log[k].Creation? && w.log[k].actor == i
  }

  predicate HoldsSuccess<B>(stage: Stage<B>) {
    (stage.Fetching? && !stage.alreadyExists) || (stage.Done? && stage.outcome.Success?)
  }

  ghost predicate NothingRemoved<B(!new)>(w: World<B>) {
    forall k :: 0 <= k < |w.log| ==> w.log[k].Creation?
  }

  /** The record a finished creator returned, or one it is about to fetch. */
  ghost predicate SeesStore<B>(p: Provisioner<B>, s: Store<B>) {
    && (p.stage.Fetching? ==> p.goal.Create? && FindByName(s.list, p.goal.body.name).Some?)
    && (p.stage.Done? && (p.stage.outcome.Success? || p.stage.outcome.AlreadyExisted?) ==>
          p.goal.Create? && FindByName(s.list, p.goal.body.name) == Some(p.stage.outcome.record))
  }

  ghost predicate AllSeeStore<B(!new)>(w: World<B>) {
    NothingRemoved(w) ==> forall i :: 0 <= i < |w.provisioners| ==> SeesStore(w.provisioners[i], w.store)
  }

  ghost predicate NotRemoved<B(!new)>(log: seq<Effect<B>>, id: int) {
    forall k :: 0 <= k < |log| && log[k].Removal? ==> log[k].record.id != id
  }

  /** A removed id is gone for good, and a created record is in the store until
      its id is removed. */
  ghost predicate LogTracksStore<B(!new)>(w: World<B>) {
    forall k :: 0 <= k < |w.log| ==>
      var r := w.log[k].record;
      && r.id <= w.store.nextID
      && (w.log[k].Removal? ==> r.id !in w.store.byID)
      && (w.log[k].Creation? && NotRemoved(w.log, r.id) ==> r.id in w.store.byID && w.store.byID[r.id] == r)
  }

  ghost predicate Conserves<B(!new)>(s0: Store<B>, w: World<B>) {
    forall name: string :: Present(s0, name) + Balance(w.log, name) == Present(w.store, name)
  }

  ghost predicate Inv<B(!new)>(s0: Store<B>, w: World<B>) {
    Valid(w.store) && Fits(w) && LogFits(w) && SuccessIsLogged(w) && AllSeeStore(w)
    && LogTracksStore(w) && Conserves(s0, w)
  }

  lemma StartsInv<B(!new)>(w: World<B>)
    requires Starts(w)
    ensures Inv(w.store, w)
  {
  }

  lemma {:induction false} FindByNameAppend<B(!new)>(list: seq<Record<B>>, r: Record<B>, name: string)
    ensures FindByName(list + [r], name) ==
            if FindByName(list, name).Some? then FindByName(list, name) else if r.name == name then Some(r) else None
  {
    if list != [] {
      assert (list + [r])[1..] == list[1..] + [r];
      FindByNameAppend(list[1..], r, name);
    }
  }

  lemma StepKeepsStoreValid<B(!new)>(w: World<B>, t: World<B>, i: nat)
    requires Valid(w.store) && StepIs(w, t, i)
    ensures Valid(t.store) && w.store.nextID <= t.store.nextID
  {
    var p := w.provisioners[i];
    if t.store != w.store {
      if p.goal.Create? {
        ApplyKeepsValid(w.store, Post(p.goal.body.name, p.goal.body.info));
      } else {
        ApplyKeepsValid(w.store, Delete(Target(p.goal).value));
      }
    }
  }

  lemma StepKeepsFits<B(!new)>(w: World<B>, t: World<B>, i: nat)
    requires Fits(w) && StepIs(w, t, i)
    ensures Fits(t)
  {
    hide FindByName, Apply, Atoi;
    assert FitsGoal(w.provisioners[i]);
  }

  lemma StepKeepsEntries<B(!new)>(w: World<B>, t: World<B>, i: nat)
    requires Valid(w.store) && LogFits(w) && StepIs(w, t, i)
    ensures LogFits(t)
  {
    hide FindByName, Apply, Atoi;
    var p := w.provisioners[i];
    assert p.stage.Changing? ==> forall k :: 0 <= k < |w.log| ==> w.log[k].actor != i by {
      assert forall k :: 0 <= k < |w.log| ==> EntryFits(w, w.log[k]);
    }
    forall k | 0 <= k < |t.log|
      ensures EntryFits(t, t.log[k])
    {
      assert k < |w.log| ==> EntryFits(w, w.log[k]) && t.log[k] == w.log[k];
    }
  }

  lemma StepLogsSuccess<B(!new)>(w: World<B>, t: World<B>, i: nat)
    requires SuccessIsLogged(w) && StepIs(w, t, i)
    ensures SuccessIsLogged(t)
  {
    hide FindByName, Apply, Atoi;
    forall j | 0 <= j < |t.provisioners| && HoldsSuccess(t.provisioners[j].stage)
      ensures exists k :: 0 <= k < |t.log| && t.log[k].Creation? && t.log[k].actor == j
    {
      if HoldsSuccess(w.provisioners[j].stage) {
        var k :| 0 <= k < |w.log| && w.log[k].Creation? && w.log[k].actor == j;
        assert t.log[k] == w.log[k];
      } else {
        assert t.log[|w.log|].actor == j;
      }
    }
  }

  lemma StepConserves<B(!new)>(s0: Store<B>, w: World<B>, t: World<B>, i: nat)
    requires Valid(w.store) && Conserves(s0, w) && StepIs(w, t, i)
    ensures Conserves(s0, t)
  {
    var p := w.provisioners[i];
    if t.store == w.store && t.log == w.log {
    } else if p.goal.Create? {
      forall name: string
        ensures Present(s0, name) + Balance(t.log, name) == Present(t.store, name)
      {
        ApplyConserves(w.store, Post(p.goal.body.name, p.goal.body.info), name);
        assert t.log[..|t.log| - 1] == w.log;
      }
    } else {
      var id := Target(p.goal).value;
      forall name: string
        ensures Present(s0, name) + Balance(t.log, name) == Present(t.store, name)
      {
        ApplyConserves(w.store, Delete(id), name);
        assert t.log[..|t.log| - 1] == w.log;
      }
    }
  }

  lemma StepTracksStore<B(!new)>(w: World<B>, t: World<B>, i: nat)
    requires Valid(w.store) && LogTracksStore(w) && StepIs(w, t, i)
    ensures LogTracksStore(t)
  {
    hide FindByName, Without, QuietMove, Atoi;
    if t.log != w.log {
      forall k | 0 <= k < |t.log|
        ensures var r := t.log[k].record;
                && r.id <= t.store.nextID
                && (t.log[k].Removal? ==> r.id !in t.store.byID)
                && (t.log[k].Creation? && NotRemoved(t.log, r.id) ==> r.id in t.store.byID && t.store.byID[r.id] == r)
      {
        var r := t.log[k].record;
        assert NotRemoved(t.log, r.id) ==> NotRemoved(w.log, r.id) by {
          assert forall l :: 0 <= l < |w.log| ==> t.log[l] == w.log[l];
        }
        assert t.log[|w.log|].Removal? && NotRemoved(t.log, r.id) ==> t.log[|w.log|].record.id != r.id;
        assert k < |w.log| ==> t.log[k] == w.log[k];
      }
    }
  }

  lemma StepKeepsSight<B(!new)>(w: World<B>, t: World<B>, i: nat)
    requires Fits(w) && AllSeeStore(w) && StepIs(w, t, i)
    ensures AllSeeStore(t)
  {
    if NothingRemoved(t) {
      assert NothingRemoved(w) by {
        assert forall k :: 0 <= k < |w.log| ==> t.log[k] == w.log[k];
      }
      var p := w.provisioners[i];
      forall j | 0 <= j < |t.provisioners|
        ensures SeesStore(t.provisioners[j], t.store)
      {
        assert SeesStore(w.provisioners[j], w.store);
        if t.store != w.store {
          assert t.log[|w.log|].Creation?;
          var r := Record(w.store.nextID + 1, p.goal.body.name, p.goal.body.info);
          assert t.store.list == w.store.list + [r];
          if w.provisioners[j].goal.Create? {
            FindByNameAppend(w.store.list, r, w.provisioners[j].goal.body.name);
          }
        }
      }
    }
  }

  lemma StepKeepsInv<B(!new)>(s0: Store<B>, w: World<B>, a: Action)
    requires Inv(s0, w)
    ensures Inv(s0, Step(w, a))
  {
    if a.Act? && a.i < |w.provisioners| {
      EveryStepIsOneMove(w, a.i, a.before, a.after, a.fault);
      hide Step, StepIs;
      StepKeepsStoreValid(w, Step(w, a), a.i);
      StepKeepsFits(w, Step(w, a), a.i);
      StepKeepsEntries(w, Step(w, a), a.i);
      StepLogsSuccess(w, Step(w, a), a.i);
      StepConserves(s0, w, Step(w, a), a.i);
      StepTracksStore(w, Step(w, a), a.i);
      StepKeepsSight(w, Step(w, a), a.i);
    }
  }

  lemma {:induction false} RunKeepsInv<B(!new)>(s0: Store<B>, w: World<B>, actions: seq<Action>)
    requires Inv(s0, w)
    ensures Inv(s0, Steps(w, actions))
    decreases |actions|
  {
    if actions != [] {
      StepKeepsInv(s0, w, actions[0]);
      RunKeepsInv(s0, Step(w, actions[0]), actions[1..]);
    }
  }
}
