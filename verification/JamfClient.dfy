/** The API client's token life cycle: keep-alive, one retry after a rejected
    token, and nothing else (pkg/jamf/client.go). */
module JamfClient {
  import opened Wrappers

  /** The gRPC codes callers tell apart. */
  datatype Code = Unauthenticated | AlreadyExists | NotFound | OtherCode

  /** Five minutes, in nanoseconds. */
  const KEEP_ALIVE: int := 300_000_000_000

  datatype ClientState = ClientState(token: string, lastKeepAlive: int)

  /** Where a call is: about to keep its token alive, about to send, or about to
      get a new token after its first send was rejected. */
  datatype Phase = Check | Send(firstTry: bool) | Renew

  /** What the world answers during one step of a call: the clock before and
      after it, and the three endpoints. A request is one send. */
  datatype Net<R> = Net(
    before: int,
    after: int,
    keepAlive: string -> Result<string, Code>,
    send: string -> Result<R, Code>,
    renew: Result<string, Code>)

  datatype Progress<R> =
    | Going(client: ClientState, phase: Phase)
    | Finished(client: ClientState, reply: Result<R, Code>)

  function Next<R>(c: ClientState, phase: Phase, net: Net<R>): Progress<R> {
    match phase
    case Check =>
      if c.token == "" then Finished(c, Err(OtherCode))
      else if net.before - c.lastKeepAlive < KEEP_ALIVE then Going(c, Send(true))
      else (
        match net.keepAlive(c.token)
        case Err(e) => Finished(c, Err(e))
        case Ok(token) => Going(ClientState(token, net.after), Send(true)))
    case Send(firstTry) => (
      match net.send(c.token)
      case Ok(r) => Finished(c, Ok(r))
      case Err(e) => if e == Unauthenticated && firstTry then Going(c, Renew) else Finished(c, Err(e)))
    case Renew =>
      match net.renew
      case Err(e) => Finished(c, Err(e))
      case Ok(token) => Going(ClientState(token, net.after), Send(false))
  }

  /** Steps a call can still take. */
  function StepsLeft(phase: Phase): nat {
    match phase
    case Check => 4
    case Send(true) => 3
    case Renew => 2
    case Send(false) => 1
  }

  /** A whole call, from step k of what the world answers. */
  function Call<R>(c: ClientState, phase: Phase, env: nat -> Net<R>, k: nat): (ClientState, Result<R, Code>)
    decreases StepsLeft(phase)
  {
    match Next(c, phase, env(k))
    case Finished(c', r) => (c', r)
    case Going(c', phase') => Call(c', phase', env, k + 1)
  }

  class Client {
    var token: string
    var lastKeepAlive: int

    constructor (token: string, now: int)
      ensures View() == ClientState(token, now)
    {
      this.token, lastKeepAlive := token, now;
    }

    function View(): ClientState
      reads this
    {
      ClientState(token, lastKeepAlive)
    }

    method SetBearerToken(token: string, now: int)
      modifies this
      ensures View() == ClientState(token, now)
    {
      lastKeepAlive := now;
      this.token := token;
    }

    method KeepAliveToken<R>(net: Net<R>) returns (r: Result<(), Code>)
      modifies this
      ensures match Next(old(View()), Check, net)
              case Finished(c, e) => View() == c == old(View()) && e.Err? && r == Err(e.error)
              case Going(c, phase) => View() == c && r.Ok? && phase == Send(true)
      ensures old(token) == "" ==> r == Err(OtherCode) && token == "" && lastKeepAlive == old(lastKeepAlive)
      ensures old(token) != "" && net.before - old(lastKeepAlive) < 300_000_000_000 ==>
                r == Ok(()) && token == old(token) && lastKeepAlive == old(lastKeepAlive)
      ensures old(token) != "" && net.before - old(lastKeepAlive) >= 300_000_000_000 ==>
                match net.keepAlive(old(token))
                case Err(e) => r == Err(e) && token == old(token) && lastKeepAlive == old(lastKeepAlive)
                case Ok(traded) => r == Ok(()) && token == traded && lastKeepAlive == net.after
    {
      if token == "" {
        return Err(OtherCode);
      }
      if net.before - lastKeepAlive < KEEP_ALIVE {
        return Ok(());
      }
      var target := net.keepAlive(token);
      if target.Err? {
        return Err(target.error);
      }
      token := target.value;
      lastKeepAlive := net.after;
      return Ok(());
    }

    /** doRequestWithMethod: its effect on the client and its result are those
        of the call as steps. `sent` lists the tokens of the requests sent: none
        without a token or when a keep-alive is due and fails; first the old
        token, or the one a due keep-alive traded it for; and then a renewed
        one, exactly when the first was rejected and renewing succeeds. */
    method DoRequest<R>(env: nat -> Net<R>) returns (r: Result<R, Code>, sent: seq<string>)
      modifies this
      ensures (View(), r) == Call(old(View()), Check, env, 0)
      ensures var due := env(0).before - old(lastKeepAlive) >= 300_000_000_000;
              var kept := env(0).keepAlive(old(token));
              if old(token) == "" || (due && kept.Err?)
              then sent == [] && token == old(token) && lastKeepAlive == old(lastKeepAlive)
                   && r == Err(if old(token) == "" then OtherCode else kept.error)
              else
                var first, refreshed := if due then kept.value else old(token), if due then env(0).after else old(lastKeepAlive);
                if env(1).send(first) != Err(Unauthenticated)
                then sent == [first] && r == env(1).send(first) && token == first && lastKeepAlive == refreshed
                else
                  match env(2).renew
                  case Err(e) => sent == [first] && r == Err(e) && token == first && lastKeepAlive == refreshed
                  case Ok(renewed) => sent == [first, renewed] && r == env(3).send(renewed)
                                      && token == renewed && lastKeepAlive == env(2).after
    {
      sent := [];
      ghost var first := token;
      ghost var refreshed := lastKeepAlive;
      var ready := KeepAliveToken(env(0));
      if ready.Err? {
        return Err(ready.error), sent;
      }
      first, refreshed := token, lastKeepAlive;
      var firstTry := true;
      var k: nat := 1;
      while true
        invariant k == if firstTry then 1 else 3
        invariant Call(old(View()), Check, env, 0) == Call(View(), Send(firstTry), env, k)
        invariant sent == if firstTry then [] else [first]
        invariant if firstTry then token == first && lastKeepAlive == refreshed
                  else env(1).send(first) == Err(Unauthenticated)
                       && env(2).renew == Ok(token) && lastKeepAlive == env(2).after
        decreases firstTry
      {
        sent := sent + [token];
        r := env(k).send(token);
        if r.Ok? || r.error != Unauthenticated || !firstTry {
          return;
        }
        var renewed := env(k + 1).renew;
        if renewed.Err? {
          r := Err(renewed.error);
          return;
        }
        SetBearerToken(renewed.value, env(k + 1).after);
        firstTry := false;
        k := k + 2;
      }
    }
  }

  // ---- When a stale token is recovered ----

  /** A server that trades the tokens of `kept` for others on keep-alive,
      accepts those of `accepted` on requests, and hands out `renewed`; its
      handlers never answer Unauthenticated themselves. */
  ghost predicate ServedBy<R(!new)>(
    net: Net<R>, kept: map<string, string>, accepted: set<string>, renewed: string, handled: Result<R, Code>)
  {
    && handled != Err(Unauthenticated)
    && (forall t :: net.keepAlive(t) == if t in kept then Ok(kept[t]) else Err(Unauthenticated))
    && (forall t :: net.send(t) == if t in accepted then handled else Err(Unauthenticated))
    && net.renew == Ok(renewed)
  }

  /** Exactly when a call gets through, and with which token. It fails and leaves
      the client as it was exactly when there is no token, or a keep-alive is due
      and the server keeps the token no longer: that returns before the retry.
      Otherwise the token, or what a due keep-alive traded it for, gets through
      when it is accepted, and else a renewed one takes its place. */
  lemma CallGetsThroughExactlyWhen<R(!new)>(
    c: ClientState, env: nat -> Net<R>,
    kept: map<string, string>, accepted: set<string>, renewed: string, handled: nat -> Result<R, Code>)
    requires forall k :: 0 <= k < 4 ==> ServedBy(env(k), kept, accepted, renewed, handled(k))
    ensures var (c', r) := Call(c, Check, env, 0);
            var due := env(0).before - c.lastKeepAlive >= 300_000_000_000;
            if c.token == "" || (due && c.token !in kept)
            then c' == c && r == Err(if c.token == "" then OtherCode else Unauthenticated)
            else
              var first := if due then kept[c.token] else c.token;
              if first in accepted
              then r == handled(1) && c' == ClientState(first, if due then env(0).after else c.lastKeepAlive)
              else r == (if renewed in accepted then handled(3) else Err(Unauthenticated))
                   && c' == ClientState(renewed, env(2).after)
  {
    assert ServedBy(env(0), kept, accepted, renewed, handled(0)) && ServedBy(env(1), kept, accepted, renewed, handled(1));
    assert ServedBy(env(2), kept, accepted, renewed, handled(2)) && ServedBy(env(3), kept, accepted, renewed, handled(3));
    var due := env(0).before - c.lastKeepAlive >= KEEP_ALIVE;
    if c.token != "" && (!due || c.token in kept) {
      var c1 := Next(c, Check, env(0)).client;
      assert Call(c, Check, env, 0) == Call(c1, Send(true), env, 1);
      if c1.token !in accepted {
        assert Call(c1, Send(true), env, 1) == Call(c1, Renew, env, 2);
        assert Call(c1, Renew, env, 2) == Call(ClientState(renewed, env(2).after), Send(false), env, 3);
      }
    }
  }

  // ---- A client over its whole life ----

  /** One step of a client that starts its next call as soon as one finishes. */
  function Live<R>(c: ClientState, phase: Phase, net: Net<R>): (ClientState, Phase) {
    match Next(c, phase, net)
    case Going(c', phase') => (c', phase')
    case Finished(c', _) => (c', Check)
  }

  function LiveAll<R>(c: ClientState, phase: Phase, nets: seq<Net<R>>): (ClientState, Phase)
    decreases |nets|
  {
    if nets == [] then (c, phase)
    else
      var (c', phase') := Live(c, phase, nets[0]);
      LiveAll(c', phase', nets[1..])
  }

  /** Whether a step is a keep-alive request that succeeds. */
  predicate Refreshes<R>(c: ClientState, phase: Phase, net: Net<R>) {
    phase == Check && c.token != "" && net.before - c.lastKeepAlive >= KEEP_ALIVE && net.keepAlive(c.token).Ok?
  }

  function CountRefreshes<R>(c: ClientState, phase: Phase, nets: seq<Net<R>>): nat
    decreases |nets|
  {
    if nets == [] then 0
    else
      var (c', phase') := Live(c, phase, nets[0]);
      (if Refreshes(c, phase, nets[0]) then 1 else 0) + CountRefreshes(c', phase', nets[1..])
  }

  ghost predicate MonotoneFrom<R>(now: int, nets: seq<Net<R>>)
    decreases |nets|
  {
    nets == [] || (now <= nets[0].before <= nets[0].after && MonotoneFrom(nets[0].after, nets[1..]))
  }

  function EndOf<R>(now: int, nets: seq<Net<R>>): int {
    if nets == [] then now else nets[|nets| - 1].after
  }

  lemma {:induction false} RefreshesAreSpaced<R>(c: ClientState, phase: Phase, nets: seq<Net<R>>, now: int)
    requires c.lastKeepAlive <= now && MonotoneFrom(now, nets)
    ensures var (c', _) := LiveAll(c, phase, nets);
            c.lastKeepAlive <= c'.lastKeepAlive <= EndOf(now, nets)
    ensures 300_000_000_000 * CountRefreshes(c, phase, nets) <= EndOf(now, nets) - c.lastKeepAlive
    decreases |nets|
  {
    if nets != [] {
      var (c', phase') := Live(c, phase, nets[0]);
      RefreshesAreSpaced(c', phase', nets[1..], nets[0].after);
    }
  }

  /** Over any run of calls, whatever the server answers, keep-alives succeed at
      most once every five minutes, and lastKeepAlive never goes back. */
  lemma KeepAlivesAreRateLimited<R>(token: string, created: int, nets: seq<Net<R>>)
    requires MonotoneFrom(created, nets)
    ensures var c := ClientState(token, created);
            && CountRefreshes(c, Check, nets) <= (EndOf(created, nets) - created) / 300_000_000_000
            && created <= LiveAll(c, Check, nets).0.lastKeepAlive
  {
    RefreshesAreSpaced(ClientState(token, created), Check, nets, created);
  }

  /** Once a keep-alive is due with a token the server no longer keeps alive,
      no number of further calls changes the client: it never asks for a new
      token again. */
  lemma {:induction false} StaleTokenIsNeverReplaced<R>(c: ClientState, nets: seq<Net<R>>, now: int)
    requires now - c.lastKeepAlive >= 300_000_000_000 && MonotoneFrom(now, nets)
    requires forall k :: 0 <= k < |nets| ==> nets[k].keepAlive(c.token).Err?
    ensures LiveAll(c, Check, nets) == (c, Check)
    decreases |nets|
  {
    if nets != [] {
      StaleTokenIsNeverReplaced(c, nets[1..], nets[0].after);
    }
  }
}
