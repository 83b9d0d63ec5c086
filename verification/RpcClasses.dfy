/** The client, the server and the direct client of the JSON-RPC protocol, as objects. */
module RpcClasses {
  import opened Values
  import opened Executor
  import opened JsonRpc
  import opened Protocol
  import opened Requests

  datatype Notification = Notification(id: nat, subject: string, message: Option<Json>)

  /** What a client may be handed: text that is no JSON, a notification, or a response. */
  datatype Incoming =
    | Unreadable(text: string)
    | Notice(subject: string, arguments: seq<Json>)
    | Answer(response: Response)

  const NOTIFICATIONS_LENGTH: nat := 1000

  /** The last notifications of a list, as many as are kept. */
  function Recent(all: seq<Notification>): (recent: seq<Notification>)
    ensures |recent| <= 1000 && |recent| <= |all| && recent == all[|all| - |recent|..]
    ensures |recent| == 1000 || recent == all
  {
    if |all| > NOTIFICATIONS_LENGTH then all[|all| - NOTIFICATIONS_LENGTH..] else all
  }

  /** What the executor of a server is notified of. */
  datatype Notified = Notified(subject: string, message: Option<Json>, node: Option<Json>)

  class Client {
    var requests: set<string>
    var promises: map<string, Settlement>
    var outbox: seq<Request>              // what was handed to `send`
    var notifications: seq<Notification>
    var notificationsCount: nat
    ghost var sends: map<string, bool>
    ghost var called: set<string>
    ghost var delivered: set<string>

    ghost function State(): ClientState
      reads this
    {
      ClientState(requests, promises, sends, called, delivered)
    }

    /** Which requests are pending, and which promises settled. */
    ghost predicate Valid()
      reads this
    {
      Consistent(State())
    }

    constructor ()
      ensures Valid()
      ensures State() == NEW_CLIENT && outbox == [] && notifications == [] && notificationsCount == 0
    {
      requests, promises, outbox, notifications, notificationsCount := {}, map[], [], [], 0;
      sends, called, delivered := map[], {}, {};
    }

    /** `id` is the generated id of the new request. */
    method Call(id: string, methodName: string, params: Params)
      modifies this`requests, this`called, this`outbox
      ensures State() == CallOn(old(State()), id)
      ensures outbox == old(outbox) + [Request(methodName, params, Some(id))]
      ensures old(Valid()) && id != "" && id !in old(called) && id !in old(delivered) ==> Valid()
    {
      var request := Request(methodName, params, Some(id));
      requests, called := requests + {id}, called + {id};
      outbox := outbox + [request];
    }

    method Notify(subject: string, message: Json)
      modifies this`outbox
      ensures outbox == old(outbox) + [Request(subject, map["message" := message], None)]
    {
      outbox := outbox + [Request(subject, map["message" := message], None)];
    }

    method Resolve(id: string, cause: Settlement)
      modifies this`promises
      ensures promises == if id in old(promises) then old(promises) else old(promises)[id := cause]
    {
      if id !in promises { promises := promises[id := cause]; }
    }

    /** Keeps the most recent notifications only. */
    method Notified(subject: string, message: Option<Json>)
      modifies this`notifications, this`notificationsCount
      ensures notificationsCount == old(notificationsCount) + 1
      ensures notifications == Recent(old(notifications) + [Notification(notificationsCount, subject, message)])
    {
      notificationsCount := notificationsCount + 1;
      notifications := notifications + [Notification(notificationsCount, subject, message)];
      if |notifications| > NOTIFICATIONS_LENGTH {
        notifications := notifications[|notifications| - NOTIFICATIONS_LENGTH..];
      }
    }

    method Receive(incoming: Incoming)
      modifies this`requests, this`promises, this`delivered, this`notifications, this`notificationsCount
      ensures incoming.Answer? ==>
        State() == ReceiveOn(old(State()), incoming.response) && notifications == old(notifications)
      ensures !incoming.Answer? ==> State() == old(State())
      ensures old(Valid()) ==> Valid()
      ensures incoming.Unreadable? ==> notifications == old(notifications)
      ensures incoming.Notice? ==>
        var message := if incoming.arguments == [] then None else Some(incoming.arguments[0]);
        && notificationsCount == old(notificationsCount) + 1
        && notifications == Recent(old(notifications) + [Notification(notificationsCount, incoming.subject, message)])
    {
      ghost var before := State();
      if Consistent(before) && incoming.Answer? { ReceiveConsistent(before, incoming.response); }
      match incoming
      case Unreadable(_) => return;
      case Notice(subject, arguments) =>
        Notified(subject, if arguments == [] then None else Some(arguments[0]));
      case Answer(response) =>
        if |response.id| == 0 { return; }
        delivered := delivered + {response.id};
        if response.id !in requests { return; }
        Resolve(response.id, ByResponse(response));
        requests := requests - {response.id};
    }

    /** Rejects every outstanding request; the loop settles one promise at a time. */
    method Stop()
      modifies this`promises
      ensures State() == StopOn(old(State()))
      ensures old(Valid()) ==> Valid()
    {
      var todo := requests;
      ghost var goal := StopOn(State()).promises;
      while todo != {}
        invariant todo <= requests
        invariant promises.Keys + todo == goal.Keys
        invariant forall id <- promises :: promises[id] == goal[id]
        invariant forall id <- todo :: id in promises || goal[id] == ByStop
        decreases todo
      {
        var id :| id in todo;
        Resolve(id, ByStop);
        todo := todo - {id};
      }
      assert promises == goal;
    }
  }

  /** What `Server.receive` does: throw, return nothing, or return a response. */
  datatype Received = Uninitialised | Nothing | Responded(response: Response)

  class Server {
    var executor: Option<(string, Params) -> Outcome>
    var notified: seq<Notified>   // notifications passed on to the executor

    constructor ()
      ensures executor == None && notified == []
    {
      executor, notified := None, [];
    }

    method Start(dispatch: (string, Params) -> Outcome)
      modifies this`executor
      ensures executor == Some(dispatch)
    {
      executor := Some(dispatch);
    }

    /** Any `claims` among the parameters are replaced by those of the server. */
    method Receive(source: Source, claims: Json) returns (r: Received)
      modifies this`notified
      ensures executor.None? ==> r == Uninitialised && notified == old(notified)
      ensures executor.Some? ==>
        r == match Respond(executor.value, Create(source), claims)
             case None => Nothing
             case Some(response) => Responded(response)
      ensures executor.Some? ==>
        notified == old(notified) +
          match Create(source)
          case Ok(Request(name, params, None)) =>
            [Notified(name, Lookup(params, "message"), Lookup(params, "node"))]
          case _ => []
    {
      if executor.None? { return Uninitialised; }
      var id: Option<string>, result: Option<Json>, error: Option<WireError> := None, None, None;
      var created := Create(source);
      match created {
        case Bad(thrown) => error := Some(FromError(thrown));
        case Ok(request) =>
          id := request.id;
          var params := request.params["claims" := claims];
          if id.None? {
            assert |"message"| == 7 && |"node"| == 4 && |"claims"| == 6;
            notified := notified +
              [Notified(request.methodName, Lookup(params, "message"), Lookup(params, "node"))];
            return Nothing;
          }
          var outcome := executor.value(request.methodName, params);
          match outcome {
            case Returned(value) => result := value;
            case Threw(thrown) => error := Some(FromError(thrown));
          }
      }
      r := Responded(Response(if id.Some? then id.value else "", result, error));
    }
  }

  /**
   * One direct hop: the response is fed into the client that sent the request, as JSON text. The
   * promise settles as one stringified hop says, and the request is no longer pending.
   */
  method DirectCall(client: Client, server: Server, id: string, methodName: string, entries: seq<Entry>)
    requires server.executor.Some?
    requires id != "" && id !in client.requests && id !in client.promises
    modifies client, server`notified
    ensures client.requests == old(client.requests)
    ensures id in client.promises && client.promises[id].ByResponse?
    ensures Accept(client.promises[id].response, true) ==
      Accept(Respond(server.executor.value, Ok(Request(methodName, Fields(entries), Some(id))), Obj([])).value, true)
  {
    client.Call(id, methodName, Fields(entries));
    CreateRestores(methodName, entries, id, "");
    var r := server.Receive(Object(RequestObject(methodName, entries, id)), Obj([]));
    client.Receive(Answer(r.response));
  }
}
