/** What whole runs of interleaving connectors guarantee: conservation of names,
    who succeeds and who fails, and what a Delete leaves behind. */
module ProvisioningRuns {
  import opened Wrappers
  import opened GoInt
  import opened Models
  import opened EntityStore
  import opened Server
  import C = JamfClient
  import opened Provisioning

  /** In every interleaving of any number of provisioners, with rotating tokens,
      faults and retries: each name is present 0 or 1 times, its initial
      presence plus its successful creations less its removals; every
      provisioner changed the store at most once; and the store is sound. */
  lemma EveryInterleavingConservesNames<B(!new)>(w: World<B>, actions: seq<Action>, name: string)
    requires Starts(w)
    ensures var t := Steps(w, actions);
            && Present(w.store, name) + Balance(t.log, name) == Present(t.store, name)
            && (forall k, l :: 0 <= k < l < |t.log| ==> t.log[k].actor != t.log[l].actor)
            && Valid(t.store)
  {
    StartsInv(w);
    RunKeepsInv(w.store, w, actions);
  }

  predicate CreatorOf<B>(p: Provisioner<B>, name: string) {
    p.goal.Create? && p.goal.body.name == name
  }

  /** Without removals, the balance counts the creations of a name. */
  lemma {:induction false} BalanceCountsCreations<B(!new)>(log: seq<Effect<B>>, name: string)
    requires forall k :: 0 <= k < |log| ==> log[k].Creation?
    ensures Balance(log, name) >= 0
    ensures Balance(log, name) == 0 <==> forall k :: 0 <= k < |log| ==> log[k].record.name != name
    ensures Balance(log, name) <= 1 ==>
              forall k, l :: 0 <= k < l < |log| ==> !(log[k].record.name == name && log[l].record.name == name)
  {
    if log != [] {
      BalanceCountsCreations(log[..|log| - 1], name);
      assert forall k :: 0 <= k < |log| - 1 ==> log[..|log| - 1][k] == log[k];
    }
  }

  /** Without removals: all creators of a name that got a record got the one the
      store holds, and at most one of them holds the success: none when the
      name was there from the start. */
  lemma CreatorsAgree<B(!new)>(w: World<B>, actions: seq<Action>, name: string, i: nat, j: nat)
    requires Starts(w)
    requires var t := Steps(w, actions);
             NothingRemoved(t) && i < |t.provisioners| && j < |t.provisioners|
             && CreatorOf(t.provisioners[i], name) && CreatorOf(t.provisioners[j], name)
    ensures var t := Steps(w, actions);
            var p := t.provisioners[i];
            && (p.stage.Done? && !p.stage.outcome.Failed? ==>
                  (p.stage.outcome.Success? || p.stage.outcome.AlreadyExisted?)
                  && FindByName(t.store.list, name) == Some(p.stage.outcome.record))
            && (HoldsSuccess(p.stage) ==> Present(w.store, name) == 0)
            && (HoldsSuccess(p.stage) && HoldsSuccess(t.provisioners[j].stage) ==> i == j)
  {
    StartsInv(w);
    RunKeepsInv(w.store, w, actions);
    var t := Steps(w, actions);
    hide Steps;
    BalanceCountsCreations(t.log, name);
    assert SeesStore(t.provisioners[i], t.store);
    if HoldsSuccess(t.provisioners[i].stage) {
      var k :| 0 <= k < |t.log| && t.log[k].Creation? && t.log[k].actor == i;
      assert EntryFits(t, t.log[k]);
      if HoldsSuccess(t.provisioners[j].stage) {
        var l :| 0 <= l < |t.log| && t.log[l].Creation? && t.log[l].actor == j;
        assert EntryFits(t, t.log[l]);
      }
    }
  }

  lemma EveryLogFits<B(!new)>(w: World<B>, actions: seq<Action>)
    requires Starts(w)
    ensures LogFits(Steps(w, actions))
  {
    StartsInv(w);
    RunKeepsInv(w.store, w, actions);
  }

  /** What a step makes of an id that was handed out: absent it stays absent,
      and nothing is removed under it. */
  lemma StepKeepsIDAbsent<B(!new)>(s0: Store<B>, w: World<B>, a: Action, id: int)
    requires Inv(s0, w)
    ensures var v := Step(w, a);
            && Inv(s0, v) && w.store.nextID <= v.store.nextID && |w.log| <= |v.log| <= |w.log| + 1
            && (id <= w.store.nextID && id !in w.store.byID ==>
                  id !in v.store.byID
                  && (|v.log| > |w.log| && v.log[|w.log|].Removal? ==> v.log[|w.log|].record.id != id))
  {
    StepKeepsInv(s0, w, a);
    if a.Act? && a.i < |w.provisioners| {
      EveryStepIsOneMove(w, a.i, a.before, a.after, a.fault);
      hide Step, Without, FindByName, QuietMove;
      StepKeepsStoreValid(w, Step(w, a), a.i);
    }
  }

  /** A deleted id never comes back, in any interleaving. */
  lemma {:induction false} DeletedIDsAreNeverReused<B(!new)>(s0: Store<B>, w: World<B>, actions: seq<Action>, id: int)
    requires Inv(s0, w) && id <= w.store.nextID && id !in w.store.byID
    ensures id !in Steps(w, actions).store.byID && id <= Steps(w, actions).store.nextID
    decreases |actions|
  {
    if actions != [] {
      StepKeepsIDAbsent(s0, w, actions[0], id);
      hide Step, Inv;
      DeletedIDsAreNeverReused(s0, Step(w, actions[0]), actions[1..], id);
    }
  }

  // ---- Who finishes, and who fails ----

  /** Steps a provisioner can still take. */
  function StepsToGo<B>(p: Provisioner<B>): nat {
    match p.stage
    case Changing(phase) => C.StepsLeft(phase) + if p.goal.Create? then 4 else 0
    case Fetching(_, phase) => C.StepsLeft(phase)
    case Done(_) => 0
  }

  /** How many of the actions are steps of provisioner i. */
  function Acts(actions: seq<Action>, i: nat): nat {
    if actions == [] then 0 else (if ActsFor(actions[0], i) then 1 else 0) + Acts(actions[1..], i)
  }

  predicate ActsFor(a: Action, i: nat) {
    a.Act? && a.i == i
  }

  /** A step the network or the token spoils: a fault where a request is sent,
      a keep-alive due with a token the server rejects, no token at all, or a
      second send that is rejected too. */
  predicate Refused<B>(w: World<B>, p: Provisioner<B>, before: int, fault: bool) {
    match p.stage
    case Done(_) => false
    case _ =>
      match p.stage.phase
      case Check => p.client.token == ""
                    || (before - p.client.lastKeepAlive >= C.KEEP_ALIVE && (fault || p.client.token != w.token))
      case Send(firstTry) => fault || (!firstTry && p.client.token != w.token)
      case Renew => fault
  }

  /** A request the server answers with an error other than a conflict: a body
      it does not accept, or a name that is gone when it is fetched. */
  predicate TurnedDown<B>(w: World<B>, p: Provisioner<B>, fault: bool) {
    !p.stage.Done? && p.stage.phase.Send? && !fault && p.client.token == w.token && p.goal.Create?
    && (if p.stage.Fetching? then FindByName(w.store.list, p.goal.body.name).None? else !p.goal.body.acceptable)
  }

  /** Exactly when a step makes a provisioner fail. */
  lemma StepFailsExactlyWhen<B(!new)>(w: World<B>, i: nat, before: int, after: int, fault: bool)
    requires i < |w.provisioners| && FitsGoal(w.provisioners[i]) && !w.provisioners[i].stage.Done?
    ensures var p := w.provisioners[i];
            Step(w, Act(i, before, after, fault)).provisioners[i].stage == Done(Failed) <==>
            Refused(w, p, before, fault) || TurnedDown(w, p, fault)
  {
    hide Step, Refused, TurnedDown, Atoi;
    if w.provisioners[i].stage.phase.Send? && !fault {
      SendFailsExactlyWhen(w, i, before, after);
    } else {
      QuietStepFailsExactlyWhen(w, i, before, after, fault);
    }
  }

  lemma QuietStepFailsExactlyWhen<B(!new)>(w: World<B>, i: nat, before: int, after: int, fault: bool)
    requires i < |w.provisioners| && FitsGoal(w.provisioners[i]) && !w.provisioners[i].stage.Done?
    requires !w.provisioners[i].stage.phase.Send? || fault
    ensures var p := w.provisioners[i];
            Step(w, Act(i, before, after, fault)).provisioners[i].stage == Done(Failed) <==>
            Refused(w, p, before, fault) || TurnedDown(w, p, fault)
  {
    hide Serve, Itoa, Atoi, FindByName;
  }

  lemma SendFailsExactlyWhen<B(!new)>(w: World<B>, i: nat, before: int, after: int)
    requires i < |w.provisioners| && FitsGoal(w.provisioners[i]) && !w.provisioners[i].stage.Done?
    requires w.provisioners[i].stage.phase.Send?
    ensures var p := w.provisioners[i];
            Step(w, Act(i, before, after, false)).provisioners[i].stage == Done(Failed) <==>
            Refused(w, p, before, false) || TurnedDown(w, p, false)
  {
    var p := w.provisioners[i];
    PathsParse(RequestOf(p.goal, p.stage));
    hide Itoa, Atoi, FindByName, Without;
  }

  lemma StepMakesProgress<B(!new)>(w: World<B>, i: nat, before: int, after: int, fault: bool)
    requires i < |w.provisioners| && FitsGoal(w.provisioners[i]) && !w.provisioners[i].stage.Done?
    ensures var q := Step(w, Act(i, before, after, fault)).provisioners[i];
            StepsToGo(q) < StepsToGo(w.provisioners[i])
  {
    hide Serve, Atoi;
  }

  /** Whether some step of provisioner i in a run is refused, or turned down. */
  predicate EverRefused<B>(w: World<B>, actions: seq<Action>, i: nat)
    decreases |actions|
  {
    actions != []
    && ((ActsFor(actions[0], i) && i < |w.provisioners|
         && Refused(w, w.provisioners[i], actions[0].before, actions[0].fault))
        || EverRefused(Step(w, actions[0]), actions[1..], i))
  }

  predicate EverTurnedDown<B>(w: World<B>, actions: seq<Action>, i: nat)
    decreases |actions|
  {
    actions != []
    && ((ActsFor(actions[0], i) && i < |w.provisioners|
         && TurnedDown(w, w.provisioners[i], actions[0].fault))
        || EverTurnedDown(Step(w, actions[0]), actions[1..], i))
  }

  /** Nobody but provisioner i moves it, and nobody moves it once it is done. */
  lemma StepOfOthers<B(!new)>(w: World<B>, a: Action, i: nat)
    requires i < |w.provisioners|
    ensures |Step(w, a).provisioners| == |w.provisioners|
    ensures Step(w, a).provisioners[i].goal == w.provisioners[i].goal
    ensures !ActsFor(a, i) || w.provisioners[i].stage.Done? ==> Step(w, a).provisioners[i] == w.provisioners[i]
  {
    hide Serve, RequestOf, AfterCall, EffectOf, NetOf;
  }

  lemma {:induction false} RunOfOne<B(!new)>(s0: Store<B>, w: World<B>, actions: seq<Action>, i: nat)
    requires Inv(s0, w) && i < |w.provisioners|
    ensures var t := Steps(w, actions);
            var p := w.provisioners[i];
            && |t.provisioners| == |w.provisioners| && t.provisioners[i].goal == p.goal
            && (p.stage.Done? ==> t.provisioners[i] == p)
            && (Acts(actions, i) >= StepsToGo(p) ==> t.provisioners[i].stage.Done?)
            && (t.provisioners[i].stage == Done(Failed) <==>
                p.stage == Done(Failed) || EverRefused(w, actions, i) || EverTurnedDown(w, actions, i))
    decreases |actions|
  {
    if actions != [] {
      var a, p := actions[0], w.provisioners[i];
      var v := Step(w, a);
      StepKeepsInv(s0, w, a);
      StepOfOthers(w, a, i);
      if ActsFor(a, i) && !p.stage.Done? {
        StepFailsExactlyWhen(w, i, a.before, a.after, a.fault);
        StepMakesProgress(w, i, a.before, a.after, a.fault);
      }
      hide Step, Inv, StepsToGo, Refused, TurnedDown;
      RunOfOne(s0, v, actions[1..], i);
      DoneIsNeverRefused(v, p, a);
    }
  }

  lemma DoneIsNeverRefused<B(!new)>(w: World<B>, p: Provisioner<B>, a: Action)
    ensures p.stage.Done? && a.Act? ==> !Refused(w, p, a.before, a.fault) && !TurnedDown(w, p, a.fault)
    ensures StepsToGo(p) == 0 <==> p.stage.Done?
  {
  }

  lemma {:induction false} LogGrows<B(!new)>(w: World<B>, actions: seq<Action>)
    ensures w.log <= Steps(w, actions).log
    decreases |actions|
  {
    if actions != [] {
      hide Serve, RequestOf, AfterCall, EffectOf, NetOf;
      assert w.log <= Step(w, actions[0]).log;
      LogGrows(Step(w, actions[0]), actions[1..]);
    }
  }

  /** The server turns nobody down but a creator with a body it does not
      accept, or one whose record a Delete took from under it. */
  lemma {:induction false} NeverTurnedDown<B(!new)>(s0: Store<B>, w: World<B>, actions: seq<Action>, i: nat)
    requires Inv(s0, w) && i < |w.provisioners|
    requires var goal := w.provisioners[i].goal;
             goal.Remove? || (goal.body.acceptable && NothingRemoved(Steps(w, actions)))
    ensures !EverTurnedDown(w, actions, i)
    decreases |actions|
  {
    if actions != [] {
      var a, p := actions[0], w.provisioners[i];
      LogGrows(w, actions);
      StepKeepsInv(s0, w, a);
      StepOfOthers(w, a, i);
      assert NothingRemoved(Steps(w, actions)) ==> NothingRemoved(w);
      assert NothingRemoved(w) ==> SeesStore(p, w.store);
      NeverTurnedDown(s0, Step(w, a), actions[1..], i);
    }
  }

  /** Exactly when a call fails. A creator with a login and an acceptable body,
      in a run without removals, that takes its steps ends with a record unless
      one of its steps was refused; a Delete of an id that parses ends as Deleted
      unless one of its steps was refused. */
  lemma EndsWellExactlyWhen<B(!new)>(s0: Store<B>, w: World<B>, actions: seq<Action>, i: nat)
    requires Inv(s0, w) && i < |w.provisioners| && !w.provisioners[i].stage.Done?
    requires Acts(actions, i) >= StepsToGo(w.provisioners[i])
    requires var goal := w.provisioners[i].goal;
             goal.Remove? || (goal.body.acceptable && NothingRemoved(Steps(w, actions)))
    ensures |Steps(w, actions).provisioners| == |w.provisioners|
    ensures var q := Steps(w, actions).provisioners[i];
            && q.goal == w.provisioners[i].goal
            && q.stage.Done?
            && (q.stage.outcome.Failed? <==> EverRefused(w, actions, i))
            && (q.goal.Remove? ==> (q.stage.outcome.Deleted? <==> !EverRefused(w, actions, i)))
            && (q.goal.Create? ==> (q.stage.outcome.Success? || q.stage.outcome.AlreadyExisted?
                                    <==> !EverRefused(w, actions, i)))
  {
    RunOfOne(s0, w, actions, i);
    NeverTurnedDown(s0, w, actions, i);
    RunKeepsInv(s0, w, actions);
    assert FitsGoal(Steps(w, actions).provisioners[i]);
    hide Steps, Inv, EverRefused, EverTurnedDown, Target;
  }

  /** On a fresh name, in every interleaving without removals: if every creator
      of the name takes its eight steps and none of them is refused, exactly one
      returns Success, all others AlreadyExists, and all the same record. */
  lemma ExactlyOneCreatorSucceeds<B(!new)>(w: World<B>, actions: seq<Action>, name: string, first: nat)
    requires Starts(w) && Present(w.store, name) == 0 && name != "" && NothingRemoved(Steps(w, actions))
    requires first < |w.provisioners| && CreatorOf(w.provisioners[first], name)
    requires forall i :: 0 <= i < |w.provisioners| && CreatorOf(w.provisioners[i], name) ==>
               w.provisioners[i].goal.body.acceptable && Acts(actions, i) >= 8 && !EverRefused(w, actions, i)
    ensures var t := Steps(w, actions);
            |t.provisioners| == |w.provisioners| && FindByName(t.store.list, name).Some? &&
            var r := FindByName(t.store.list, name).value;
            exists i :: 0 <= i < |w.provisioners| && CreatorOf(w.provisioners[i], name)
              && t.provisioners[i].stage == Done(Success(r))
              && forall j :: 0 <= j < |w.provisioners| && CreatorOf(w.provisioners[j], name) && j != i ==>
                   t.provisioners[j].stage == Done(AlreadyExisted(r))
  {
    var t := Steps(w, actions);
    StartsInv(w);
    RunOfOne(w.store, w, actions, first);
    forall i | 0 <= i < |w.provisioners|
      ensures t.provisioners[i].goal == w.provisioners[i].goal
      ensures CreatorOf(w.provisioners[i], name) ==> t.provisioners[i].stage.Done? && !t.provisioners[i].stage.outcome.Failed?
    {
      RunOfOne(w.store, w, actions, i);
      if CreatorOf(w.provisioners[i], name) {
        EndsWellExactlyWhen(w.store, w, actions, i);
      }
    }
    UnfailedCreatorsAgree(w, actions, name, first);
  }

  lemma UnfailedCreatorsAgree<B(!new)>(w: World<B>, actions: seq<Action>, name: string, first: nat)
    requires Starts(w) && Present(w.store, name) == 0
    requires var t := Steps(w, actions);
             && NothingRemoved(t)
             && first < |t.provisioners| && CreatorOf(t.provisioners[first], name)
             && (forall i :: 0 <= i < |t.provisioners| && CreatorOf(t.provisioners[i], name) ==>
                   t.provisioners[i].stage.Done? && !t.provisioners[i].stage.outcome.Failed?)
    ensures var t := Steps(w, actions);
            FindByName(t.store.list, name).Some? &&
            var r := FindByName(t.store.list, name).value;
            exists i :: 0 <= i < |t.provisioners| && CreatorOf(t.provisioners[i], name)
              && t.provisioners[i].stage == Done(Success(r))
              && forall j :: 0 <= j < |t.provisioners| && CreatorOf(t.provisioners[j], name) && j != i ==>
                   t.provisioners[j].stage == Done(AlreadyExisted(r))
  {
    EveryInterleavingConservesNames(w, actions, name);
    EveryLogFits(w, actions);
    hide Steps, Starts, Valid;
    CreatorsAgree(w, actions, name, first, first);
    var t := Steps(w, actions);
    BalanceCountsCreations(t.log, name);
    assert Present(t.store, name) == 1;
    var k :| 0 <= k < |t.log| && t.log[k].record.name == name;
    var i := t.log[k].actor;
    assert EntryFits(t, t.log[k]);
    forall j | 0 <= j < |t.provisioners| && CreatorOf(t.provisioners[j], name)
      ensures t.provisioners[j].stage ==
              Done(if j == i then Success(FindByName(t.store.list, name).value)
                   else AlreadyExisted(FindByName(t.store.list, name).value))
    {
      CreatorsAgree(w, actions, name, j, i);
    }
  }

  // ---- Runs in which nothing is refused ----

  /** Nobody changes the server's token, none of provisioner i's requests meets
      a fault, and its client has a token that the server accepts or that is less
      than five minutes old at each of its steps. */
  predicate Calm<B>(token: string, client: C.ClientState, actions: seq<Action>, i: nat) {
    client.token != "" &&
    forall k :: 0 <= k < |actions| ==>
      actions[k].Act?
      && (actions[k].i == i ==>
            !actions[k].fault
            && (client.token == token || actions[k].before - client.lastKeepAlive < 300_000_000_000))
  }

  /** Where the steps of a calm provisioner take its client: it keeps the token
      it had until the server rejects it, and then has the server's. */
  predicate CalmClient<B>(token: string, start: C.ClientState, p: Provisioner<B>) {
    p.stage.Done? || p.client.token == token || (p.client == start && p.stage.phase != C.Send(false))
  }

  lemma StepStaysCalm<B(!new)>(w: World<B>, start: C.ClientState, a: Action, i: nat)
    requires i < |w.provisioners| && w.token != "" && start.token != "" && CalmClient(w.token, start, w.provisioners[i])
    requires a.Act? && (a.i == i ==> !a.fault && (start.token == w.token || a.before - start.lastKeepAlive < 300_000_000_000))
    ensures a.i == i ==> !Refused(w, w.provisioners[i], a.before, a.fault)
    ensures var v := Step(w, a);
            v.token == w.token && i < |v.provisioners| && CalmClient(w.token, start, v.provisioners[i])
  {
    hide Atoi, Itoa, FindByName, Without;
  }

  lemma {:induction false} CalmRunIsNeverRefused<B(!new)>(w: World<B>, start: C.ClientState, actions: seq<Action>, i: nat)
    requires i < |w.provisioners| && w.token != "" && CalmClient(w.token, start, w.provisioners[i])
    requires Calm<B>(w.token, start, actions, i)
    ensures !EverRefused(w, actions, i)
    decreases |actions|
  {
    if actions != [] {
      StepStaysCalm(w, start, actions[0], i);
      hide Step, Refused, CalmClient;
      CalmRunIsNeverRefused(Step(w, actions[0]), start, actions[1..], i);
    }
  }

  /** On a fresh name, in every calm interleaving without removals in which every
      creator of the name takes its eight steps, with tokens the server accepts
      or rejects: exactly one returns Success, all others AlreadyExists, and all
      the same record. */
  lemma CalmCreatorsSucceedOnce<B(!new)>(w: World<B>, actions: seq<Action>, name: string, first: nat)
    requires Starts(w) && Present(w.store, name) == 0 && name != "" && w.token != "" && NothingRemoved(Steps(w, actions))
    requires first < |w.provisioners| && CreatorOf(w.provisioners[first], name)
    requires forall i :: 0 <= i < |w.provisioners| && CreatorOf(w.provisioners[i], name) ==>
               w.provisioners[i].goal.body.acceptable && Acts(actions, i) >= 8
               && Calm<B>(w.token, w.provisioners[i].client, actions, i)
    ensures var t := Steps(w, actions);
            |t.provisioners| == |w.provisioners| && FindByName(t.store.list, name).Some? &&
            var r := FindByName(t.store.list, name).value;
            exists i :: 0 <= i < |w.provisioners| && CreatorOf(w.provisioners[i], name)
              && t.provisioners[i].stage == Done(Success(r))
              && forall j :: 0 <= j < |w.provisioners| && CreatorOf(w.provisioners[j], name) && j != i ==>
                   t.provisioners[j].stage == Done(AlreadyExisted(r))
  {
    forall i | 0 <= i < |w.provisioners| && CreatorOf(w.provisioners[i], name)
      ensures !EverRefused(w, actions, i)
    {
      CalmRunIsNeverRefused(w, w.provisioners[i].client, actions, i);
    }
    hide Steps, EverRefused, Calm, Valid;
    ExactlyOneCreatorSucceeds(w, actions, name, first);
  }

  // ---- Goals that are refused before any request ----

  lemma {:induction false} DoneLeavesNoEntry<B(!new)>(s0: Store<B>, w: World<B>, actions: seq<Action>, i: nat)
    requires Inv(s0, w) && i < |w.provisioners| && w.provisioners[i].stage.Done?
    ensures var t := Steps(w, actions);
            forall k :: |w.log| <= k < |t.log| ==> t.log[k].actor != i
    decreases |actions|
  {
    if actions != [] {
      var v := Step(w, actions[0]);
      StepOfOthers(w, actions[0], i);
      StepOfDoneLogsNothing(s0, w, actions[0], i);
      LogGrows(v, actions[1..]);
      hide Step, Inv;
      DoneLeavesNoEntry(s0, v, actions[1..], i);
      var t := Steps(v, actions[1..]);
      assert Steps(w, actions) == t;
      hide Steps;
      forall k | |w.log| <= k < |t.log|
        ensures t.log[k].actor != i
      {
        assert k < |v.log| ==> t.log[k] == v.log[k];
      }
    }
  }

  lemma StepOfDoneLogsNothing<B(!new)>(s0: Store<B>, w: World<B>, a: Action, i: nat)
    requires Inv(s0, w) && i < |w.provisioners| && w.provisioners[i].stage.Done?
    ensures Inv(s0, Step(w, a))
    ensures w.log <= Step(w, a).log && forall k :: |w.log| <= k < |Step(w, a).log| ==> Step(w, a).log[k].actor != i
  {
    StepKeepsInv(s0, w, a);
    if a.Act? && a.i < |w.provisioners| {
      EveryStepIsOneMove(w, a.i, a.before, a.after, a.fault);
    }
    hide Step, FindByName, Without, Inv, Atoi, QuietMove;
  }

  /** A creator without a login and a Delete of a resource id that is no number
      have failed from the start and never change anything; every other
      provisioner starts by keeping its token alive. */
  lemma BadGoalsFailAtOnce<B(!new)>(w: World<B>, actions: seq<Action>, i: nat)
    requires Starts(w) && i < |w.provisioners|
    ensures var t, p := Steps(w, actions), w.provisioners[i];
            if (p.goal.Create? && p.goal.body.name == "") || (p.goal.Remove? && Atoi(p.goal.resource).None?)
            then i < |t.provisioners| && t.provisioners[i].stage == Done(Failed)
                 && forall k :: 0 <= k < |t.log| ==> t.log[k].actor != i
            else p.stage == Changing(C.Check)
  {
    StartsInv(w);
    if w.provisioners[i].stage.Done? {
      RunOfOne(w.store, w, actions, i);
      DoneLeavesNoEntry(w.store, w, actions, i);
    }
  }

  // ---- Deletes ----

  /** The step that ends a Delete as Deleted leaves its id absent. */
  lemma StepEndsDelete<B(!new)>(s0: Store<B>, w: World<B>, a: Action, i: nat)
    requires Inv(s0, w) && i < |w.provisioners| && !w.provisioners[i].stage.Done? && Target(w.provisioners[i].goal).Some?
    ensures i < |Step(w, a).provisioners| && (Step(w, a).provisioners[i].stage == Done(Deleted) ==>
                                               Target(w.provisioners[i].goal).value !in Step(w, a).store.byID)
  {
    StepOfOthers(w, a, i);
    if ActsFor(a, i) {
      EveryStepIsOneMove(w, i, a.before, a.after, a.fault);
      hide Step, Without, FindByName, Atoi;
    }
  }

  /** A Delete that ends as Deleted leaves its id absent, then and for ever, in
      every interleaving in which the id had been handed out. */
  lemma {:induction false} DeleteMeansGone<B(!new)>(s0: Store<B>, w: World<B>, actions: seq<Action>, i: nat)
    requires Inv(s0, w) && i < |w.provisioners| && !w.provisioners[i].stage.Done?
    requires Target(w.provisioners[i].goal).Some? && Target(w.provisioners[i].goal).value <= w.store.nextID
    requires i < |Steps(w, actions).provisioners| && Steps(w, actions).provisioners[i].stage == Done(Deleted)
    ensures Target(w.provisioners[i].goal).value !in Steps(w, actions).store.byID
    decreases |actions|
  {
    if actions != [] {
      var a, id := actions[0], Target(w.provisioners[i].goal).value;
      var v := Step(w, a);
      StepKeepsIDAbsent(s0, w, a, id);
      StepOfOthers(w, a, i);
      StepEndsDelete(s0, w, a, i);
      hide Step, Inv, Target;
      if v.provisioners[i].stage.Done? {
        RunOfOne(s0, v, actions[1..], i);
        DeletedIDsAreNeverReused(s0, v, actions[1..], id);
      } else {
        DeleteMeansGone(s0, v, actions[1..], i);
      }
    }
  }

  /** From the moment a handed-out id is absent, no run removes any record under
      it: every later removal is of another id. */
  lemma {:induction false} AbsentIDIsNeverRemoved<B(!new)>(s0: Store<B>, w: World<B>, actions: seq<Action>, id: int)
    requires Inv(s0, w) && id <= w.store.nextID && id !in w.store.byID
    ensures forall k :: |w.log| <= k < |Steps(w, actions).log| && Steps(w, actions).log[k].Removal? ==>
              Steps(w, actions).log[k].record.id != id
    decreases |actions|
  {
    if actions != [] {
      var v := Step(w, actions[0]);
      StepKeepsIDAbsent(s0, w, actions[0], id);
      LogGrows(v, actions[1..]);
      hide Step, Inv;
      AbsentIDIsNeverRemoved(s0, v, actions[1..], id);
      var t := Steps(v, actions[1..]);
      assert Steps(w, actions) == t;
      hide Steps;
      forall k | |w.log| <= k < |t.log| && t.log[k].Removal?
        ensures t.log[k].record.id != id
      {
        assert k < |v.log| ==> k == |w.log| && t.log[k] == v.log[k];
      }
    }
  }

  /** A repeated Delete: of an id that was handed out and is absent, whatever
      else happens meanwhile, including a new record of the same name. It never
      removes anything, and when it takes its four steps it succeeds exactly
      when none of them is refused. */
  lemma RepeatedDeleteSucceeds<B(!new)>(s0: Store<B>, w: World<B>, actions: seq<Action>, i: nat)
    requires Inv(s0, w) && i < |w.provisioners| && !w.provisioners[i].stage.Done?
    requires Target(w.provisioners[i].goal).Some? && Target(w.provisioners[i].goal).value <= w.store.nextID
    requires Target(w.provisioners[i].goal).value !in w.store.byID
    ensures var t := Steps(w, actions);
            && (forall k :: |w.log| <= k < |t.log| ==> t.log[k].actor != i)
            && (Acts(actions, i) >= 4 ==>
                  i < |t.provisioners|
                  && t.provisioners[i].stage == Done(if EverRefused(w, actions, i) then Failed else Deleted))
  {
    var t := Steps(w, actions);
    AbsentIDIsNeverRemoved(s0, w, actions, Target(w.provisioners[i].goal).value);
    RunOfOne(s0, w, actions, i);
    RunKeepsInv(s0, w, actions);
    forall k | |w.log| <= k < |t.log|
      ensures t.log[k].actor != i
    {
      assert EntryFits(t, t.log[k]);
    }
    if Acts(actions, i) >= 4 {
      EndsWellExactlyWhen(s0, w, actions, i);
    }
  }

  // ---- Whose record a creator returns ----

  /** The record a creator's fetch returns is the one it created exactly when
      nobody has removed that id by then, whatever else happened to the name. */
  lemma FetchReturnsOwnRecordExactlyWhen<B(!new)>(
    s0: Store<B>, w: World<B>, i: nat, before: int, after: int, fault: bool, k: nat)
    requires Inv(s0, w) && i < |w.provisioners| && w.provisioners[i].stage.Fetching?
    requires k < |w.log| && w.log[k].Creation? && w.log[k].actor == i
    ensures var q := Step(w, Act(i, before, after, fault)).provisioners[i];
            q.stage.Done? && q.stage.outcome.Success? ==>
              && q.stage.outcome.record.name == w.log[k].record.name
              && (q.stage.outcome.record == w.log[k].record <==> NotRemoved(w.log, w.log[k].record.id))
  {
    EveryStepIsOneMove(w, i, before, after, fault);
    assert EntryFits(w, w.log[k]);
    FindByNameIs(w.store, w.log[k].record);
    FindByNameFinds(w.store.list, w.log[k].record.name);
    hide Step, FindByName, Apply, Conserves, AllSeeStore, SuccessIsLogged, LogFits, Atoi, Fits;
  }

  /** A success whose created id is not on the log as removed is its own record. */
  ghost predicate SuccessIsOwn<B(!new)>(w: World<B>) {
    forall k :: 0 <= k < |w.log| && w.log[k].Creation? && w.log[k].actor < |w.provisioners| ==>
      var stage := w.provisioners[w.log[k].actor].stage;
      stage.Done? && stage.outcome.Success? && NotRemoved(w.log, w.log[k].record.id) ==>
        stage.outcome.record == w.log[k].record
  }

  lemma StepKeepsSuccessOwn<B(!new)>(s0: Store<B>, w: World<B>, i: nat, before: int, after: int, fault: bool)
    requires Inv(s0, w) && SuccessIsOwn(w) && i < |w.provisioners|
    ensures SuccessIsOwn(Step(w, Act(i, before, after, fault)))
  {
    var t := Step(w, Act(i, before, after, fault));
    EveryStepIsOneMove(w, i, before, after, fault);
    hide Step, FindByName, Apply, Conserves, AllSeeStore, LogTracksStore;
    forall k | 0 <= k < |t.log| && t.log[k].Creation? && t.log[k].actor < |t.provisioners|
      ensures var stage := t.provisioners[t.log[k].actor].stage;
              stage.Done? && stage.outcome.Success? && NotRemoved(t.log, t.log[k].record.id) ==>
                stage.outcome.record == t.log[k].record
    {
      if k < |w.log| {
        assert t.log[k] == w.log[k];
        assert NotRemoved(t.log, t.log[k].record.id) ==> NotRemoved(w.log, w.log[k].record.id) by {
          assert forall l :: 0 <= l < |w.log| ==> t.log[l] == w.log[l];
        }
        if t.log[k].actor == i && w.provisioners[i].stage.Fetching? {
          FetchReturnsOwnRecordExactlyWhen(s0, w, i, before, after, fault, k);
        } else if t.log[k].actor == i {
          assert EntryFits(w, w.log[k]);
        }
      }
    }
  }

  lemma {:induction false} RunKeepsSuccessOwn<B(!new)>(s0: Store<B>, w: World<B>, actions: seq<Action>)
    requires Inv(s0, w) && SuccessIsOwn(w)
    ensures SuccessIsOwn(Steps(w, actions))
    decreases |actions|
  {
    if actions != [] {
      var a := actions[0];
      StepKeepsInv(s0, w, a);
      if a.Act? && a.i < |w.provisioners| {
        StepKeepsSuccessOwn(s0, w, a.i, a.before, a.after, a.fault);
      }
      RunKeepsSuccessOwn(s0, Step(w, a), actions[1..]);
    }
  }

  /** In every interleaving, with removals: every creator that returned Success
      created a record of its own login and body, and what it returned is that
      record unless its id has been removed. */
  lemma SuccessesReturnTheirOwnRecord<B(!new)>(w: World<B>, actions: seq<Action>, i: nat)
    requires Starts(w)
    requires var t := Steps(w, actions);
             i < |t.provisioners| && t.provisioners[i].stage.Done? && t.provisioners[i].stage.outcome.Success?
    ensures var t := Steps(w, actions);
            exists k :: 0 <= k < |t.log| && t.log[k].Creation? && t.log[k].actor == i
              && t.provisioners[i].goal.Create?
              && t.log[k].record.name == t.provisioners[i].goal.body.name
              && t.log[k].record.info == t.provisioners[i].goal.body.info
              && (NotRemoved(t.log, t.log[k].record.id) ==> t.provisioners[i].stage.outcome.record == t.log[k].record)
  {
    StartsInv(w);
    RunKeepsInv(w.store, w, actions);
    RunKeepsSuccessOwn(w.store, w, actions);
    var t := Steps(w, actions);
    var k :| 0 <= k < |t.log| && t.log[k].Creation? && t.log[k].actor == i;
    assert EntryFits(t, t.log[k]);
  }

  // ---- A run in which a creator returns somebody else's record ----

  function Now(i: nat): Action {
    Act(i, 0, 0, false)
  }

  /** Creators 0 and 2 of the name "n" and a deleter 1 of id 1. */
  function Race(store: Store<int>, zero: Stage<int>, one: Stage<int>, two: Stage<int>, log: seq<Effect<int>>): World<int> {
    var client := C.ClientState("t", 0);
    World("t", store,
          [Provisioner(Create(Body("n", true, 10)), client, zero),
           Provisioner(Remove("1"), client, one),
           Provisioner(Create(Body("n", true, 20)), client, two)], log)
  }

  function RaceStart(): World<int> {
    Race(Store(map[], [], 0), Changing(C.Check), Changing(C.Check), Changing(C.Check), [])
  }

  lemma {:induction false} StepsConcat<B(!new)>(w: World<B>, a: seq<Action>, b: seq<Action>)
    ensures Steps(w, a + b) == Steps(Steps(w, a), b)
    decreases |a|
  {
    if a == [] {
      assert a + b == b;
    } else {
      assert (a + b)[1..] == a[1..] + b;
      StepsConcat(Step(w, a[0]), a[1..], b);
    }
  }

  lemma RaceCreates()
    ensures var mine := Record(1, "n", 10);
            Steps(RaceStart(), [Now(0), Now(0)]) ==
            Race(Store(map[1 := mine], [mine], 1),
                 Fetching(false, C.Check), Changing(C.Check), Changing(C.Check), [Creation(0, mine)])
  {
  }

  lemma RaceRemoves(mine: Record<int>, w: World<int>)
    requires mine == Record(1, "n", 10)
    requires w == Race(Store(map[1 := mine], [mine], 1),
                       Fetching(false, C.Check), Changing(C.Check), Changing(C.Check), [Creation(0, mine)])
    ensures Steps(w, [Now(1), Now(1)]) ==
            Race(Store(map[], [], 1), Fetching(false, C.Check), Done(Deleted), Changing(C.Check),
                 [Creation(0, mine), Removal(1, mine)])
  {
    assert "1"[..0] == "" && Atoi("1") == Some(1);
    AtoiOfItoa(1);
    var s := Store(map[1 := mine], [mine], 1);
    assert Without(s.list, 1) == [] && s.byID - {1} == map[];
    assert Serve("t", "t", s, DeleteRequest(1)) == (Store(map[], [], 1), OK);
    hide Itoa, Atoi, Serve;
    var w1 := Step(w, Now(1));
    assert w1.provisioners[1].stage == Changing(C.Send(true));
    assert Step(w1, Now(1)).store == Store(map[], [], 1);
    assert Steps(w, [Now(1), Now(1)]) == Step(w1, Now(1)) by {
      assert [Now(1), Now(1)][1..] == [Now(1)] && [Now(1)][1..] == [];
    }
  }

  lemma RaceCreatesAgain(log: seq<Effect<int>>, w: World<int>)
    requires w == Race(Store(map[], [], 1), Fetching(false, C.Check), Done(Deleted), Changing(C.Check), log)
    ensures var theirs := Record(2, "n", 20);
            Steps(w, [Now(2), Now(2)]) ==
            Race(Store(map[2 := theirs], [theirs], 2),
                 Fetching(false, C.Check), Done(Deleted), Fetching(false, C.Check), log + [Creation(2, theirs)])
  {
  }

  lemma RaceFetches(log: seq<Effect<int>>, theirs: Record<int>, w: World<int>)
    requires theirs.name == "n"
    requires w == Race(Store(map[2 := theirs], [theirs], 2),
                       Fetching(false, C.Check), Done(Deleted), Fetching(false, C.Check), log)
    ensures var t := Steps(w, [Now(0), Now(0)]);
            |t.provisioners| == 3 && t.provisioners[0].stage == Done(Success(theirs))
  {
  }

  /** Creator 0 posts, deleter 1 removes the new id, creator 2 posts the same
      name, and creator 0 fetches: it returns Success with creator 2's record. */
  lemma CreatorMayReturnAnothersRecord()
    ensures Starts(RaceStart())
    ensures var t := Steps(RaceStart(), [Now(0), Now(0)] + [Now(1), Now(1)] + [Now(2), Now(2)] + [Now(0), Now(0)]);
            |t.provisioners| == 3 && t.provisioners[0].stage == Done(Success(Record(2, "n", 20)))
  {
    hide Step, Steps;
    var mine, theirs := Record(1, "n", 10), Record(2, "n", 20);
    var a, b, c := [Now(0), Now(0)], [Now(1), Now(1)], [Now(2), Now(2)];
    StepsConcat(RaceStart(), a, b);
    StepsConcat(RaceStart(), a + b, c);
    StepsConcat(RaceStart(), a + b + c, a);
    RaceCreates();
    RaceRemoves(mine, Steps(RaceStart(), a));
    RaceCreatesAgain([Creation(0, mine), Removal(1, mine)], Steps(RaceStart(), a + b));
    RaceFetches([Creation(0, mine), Removal(1, mine)] + [Creation(2, theirs)], theirs, Steps(RaceStart(), a + b + c));
  }
}
