/**
 The browser's fetch wrapper.  JavaScript runs one task to completion at a time, so each method
 below is one task: a response or a settled refresh arrives, and every continuation waiting for
 it runs before anything else does.
 */
module ApiClient {
  import opened Common

  /** A call has had its first answer outstanding, waits for the refresh, retries, or is over. */
  datatype Phase = First | Waiting | Retrying | Finished

  datatype Call = Call(skipAuth: bool, phase: Phase, requests: nat)

  /**
   refreshPromise holds the token being exchanged and refreshToken what local storage holds; sent
   lists the tokens ever sent to the refresh endpoint, settled counts those no longer in flight.
   */
  datatype Client = Client(
    refreshToken: Option<nat>,
    refreshPromise: Option<nat>,
    calls: map<nat, Call>,
    sent: seq<nat>,
    settled: nat
  )

  function Started(c: Client, id: nat, skipAuth: bool): Client {
    c.(calls := c.calls[id := Call(skipAuth, First, 1)])
  }

  function InPhase(c: Client, id: nat, p: Phase): bool {
    id in c.calls && c.calls[id].phase == p
  }

  function Finish(c: Client, id: nat): Client
    requires id in c.calls
  {
    c.(calls := c.calls[id := c.calls[id].(phase := Finished)])
  }

  /** The first answer: anything but a 401 ends the call; a 401 joins, starts or gives up a refresh. */
  function Answered(c: Client, id: nat, unauthorized: bool): Client
    requires id in c.calls
  {
    if !unauthorized then Finish(c, id)
    else if c.calls[id].skipAuth then Finish(c, id).(refreshToken := None)
    else
      var waiting := c.(calls := c.calls[id := c.calls[id].(phase := Waiting)]);
      if c.refreshPromise.Some? then waiting
      else
        match c.refreshToken
        case None => Finish(c, id)
        case Some(t) => waiting.(refreshPromise := Some(t), sent := c.sent + [t])
  }

  function Resumed(calls: map<nat, Call>, refreshed: bool): (r: map<nat, Call>)
    ensures r.Keys == calls.Keys
  {
    map id | id in calls ::
      if calls[id].phase != Waiting then calls[id]
      else if refreshed then calls[id].(phase := Retrying, requests := calls[id].requests + 1)
      else calls[id].(phase := Finished)
  }

  /** The refresh settles: with a new token every waiting call is retried, without one all give up. */
  function Settled(c: Client, result: Option<nat>): Client {
    c.(refreshToken := result, refreshPromise := None,
       calls := Resumed(c.calls, result.Some?), settled := c.settled + 1)
  }

  /** The retry's answer ends the call; a second 401 drops the tokens. */
  function RetryAnswered(c: Client, id: nat, unauthorized: bool): Client
    requires id in c.calls
  {
    if unauthorized then Finish(c, id).(refreshToken := None) else Finish(c, id)
  }

  /** A navigation or reload: local storage survives, the module's variables and all waiting calls do not. */
  function Reloaded(c: Client): Client {
    c.(refreshPromise := None, calls := map[], settled := |c.sent|)
  }

  class Api {
    var refreshToken: Option<nat>
    var refreshPromise: Option<nat>
    var calls: map<nat, Call>
    ghost var sent: seq<nat>
    ghost var settled: nat

    constructor ()
      ensures State() == Client(None, None, map[], [], 0)
    {
      refreshToken, refreshPromise, calls := None, None, map[];
      sent, settled := [], 0;
    }

    ghost function State(): Client
      reads this
    {
      Client(refreshToken, refreshPromise, calls, sent, settled)
    }

    method SetTokens(refresh: nat)
      modifies this`refreshToken
      ensures refreshToken == Some(refresh)
    {
      refreshToken := Some(refresh);
    }

    method ClearTokens()
      modifies this`refreshToken
      ensures refreshToken == None
    {
      refreshToken := None;
    }

    method Fetch(id: nat, skipAuth: bool)
      requires id !in calls
      modifies this`calls
      ensures State() == Started(old(State()), id, skipAuth)
    {
      calls := calls[id := Call(skipAuth, First, 1)];
    }

    /** The synchronous part of tryRefresh: join, start, or fail at once for want of a token. */
    method TryRefresh() returns (pending: bool, request: Option<nat>)
      modifies this`refreshPromise, this`sent
      ensures pending <==> old(refreshPromise).Some? || refreshToken.Some?
      ensures request == if old(refreshPromise).None? then refreshToken else None
      ensures refreshPromise == if old(refreshPromise).Some? then old(refreshPromise) else refreshToken
      ensures sent == old(sent) + (if request.Some? then [request.value] else [])
    {
      if refreshPromise.Some? {
        return true, None;
      }
      request := refreshToken;
      if request.Some? {
        refreshPromise := request;
        sent := sent + [request.value];
      }
      pending := request.Some?;
    }

    method OnAnswer(id: nat, unauthorized: bool) returns (request: Option<nat>)
      requires InPhase(State(), id, First)
      modifies this
      ensures State() == Answered(old(State()), id, unauthorized)
      ensures sent == old(sent) + (if request.Some? then [request.value] else [])
    {
      request := None;
      if unauthorized && !calls[id].skipAuth {
        var pending: bool;
        pending, request := TryRefresh();
        if pending {
          calls := calls[id := calls[id].(phase := Waiting)];
          return;
        }
      }
      if unauthorized {
        ClearTokens();
      }
      calls := calls[id := calls[id].(phase := Finished)];
    }

    method OnSettled(result: Option<nat>)
      requires refreshPromise.Some?
      modifies this
      ensures State() == Settled(old(State()), result)
    {
      if result.Some? {
        SetTokens(result.value);
      }
      refreshPromise := None;
      settled := settled + 1;
      if result.None? {
        ClearTokens();
      }
      calls := Resumed(calls, result.Some?);
    }

    method OnRetryAnswer(id: nat, unauthorized: bool)
      requires InPhase(State(), id, Retrying)
      modifies this
      ensures State() == RetryAnswered(old(State()), id, unauthorized)
    {
      if unauthorized {
        ClearTokens();
      }
      calls := calls[id := calls[id].(phase := Finished)];
    }

    method Reload()
      modifies this
      ensures State() == Reloaded(old(State()))
    {
      refreshPromise, calls := None, map[];
      settled := |sent|;
    }
  }
}
