/** `FallbackController` of the API gateway: the answers given when a
    downstream service is unreachable. The current time is an input. */
module Gateway {

  datatype HttpStatus = Accepted | ServiceUnavailable {
    function Value(): int {
      match this
      case Accepted => 202
      case ServiceUnavailable => 503
    }
  }

  /** The parts of the request the controller reads. */
  datatype Request = Request(httpMethod: string, path: string)

  /** A value of the JSON body map: a string or a number. */
  datatype BodyValue = Text(s: string) | Number(n: int)

  datatype Response = Response(status: HttpStatus, body: map<string, BodyValue>)

  const UsersMessage: string := "user-service временно недоступен; повторите позже"
  const NotificationsAcceptedMessage: string := "notification-service недоступен; запрос принят шлюзом"
  const NotificationsRetryMessage: string := "notification-service недоступен; повторите позже"

  const BodyKeys: set<string> := {"timestamp", "status", "message", "method", "path", "source"}

  /** `build`: the status, and a body with exactly six entries: the time, the
      status code, the message, the request's method and path unchanged, and
      the "gateway-fallback" source tag. */
  function Build(status: HttpStatus, message: string, req: Request, now: string): (r: Response)
    ensures r.status == status
    ensures r.body.Keys == BodyKeys
    ensures r.body["status"] == Number(status.Value())
    ensures r.body["message"] == Text(message)
    ensures r.body["method"] == Text(req.httpMethod) && r.body["path"] == Text(req.path)
    ensures r.body["source"] == Text("gateway-fallback") && r.body["timestamp"] == Text(now)
  {
    Response(status, map[
      "timestamp" := Text(now),
      "status" := Number(status.Value()),
      "message" := Text(message),
      "method" := Text(req.httpMethod),
      "path" := Text(req.path),
      "source" := Text("gateway-fallback")])
  }

  /** `/fallback/users`: always 503 with the "try again later" message. */
  function UsersFallback(req: Request, now: string): (r: Response)
    ensures r.body.Keys == BodyKeys
    ensures r.status == ServiceUnavailable && r.body["status"] == Number(503)
    ensures r.body["message"] == Text(UsersMessage)
    ensures r.body["method"] == Text(req.httpMethod) && r.body["path"] == Text(req.path)
    ensures r.body["source"] == Text("gateway-fallback")
  {
    Build(ServiceUnavailable, UsersMessage, req, now)
  }

  /** `/fallback/notifications`: 202 for a POST, 503 for any other method;
      the "accepted by the gateway" message exactly when the status is 202. */
  function NotificationsFallback(req: Request, now: string): (r: Response)
    ensures r.status == Accepted <==> req.httpMethod == "POST"
    ensures r.status == ServiceUnavailable <==> req.httpMethod != "POST"
    ensures r.body.Keys == BodyKeys
    ensures r.body["status"] == Number(r.status.Value())
    ensures r.body["message"] == Text(NotificationsAcceptedMessage) <==> r.status == Accepted
    ensures r.body["message"] == Text(NotificationsRetryMessage) <==> r.status == ServiceUnavailable
    ensures r.body["method"] == Text(req.httpMethod) && r.body["path"] == Text(req.path)
    ensures r.body["source"] == Text("gateway-fallback")
  {
    var status := if req.httpMethod == "POST" then Accepted else ServiceUnavailable;
    var msg := if req.httpMethod == "POST" then NotificationsAcceptedMessage else NotificationsRetryMessage;
    assert NotificationsAcceptedMessage != NotificationsRetryMessage by {
      assert |NotificationsAcceptedMessage| != |NotificationsRetryMessage|;
    }
    Build(status, msg, req, now)
  }
}
