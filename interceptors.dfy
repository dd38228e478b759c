/**
 * The instance allow-list gate in front of every gRPC handler
 * (pkg/grpc/interceptors/interceptors.go).
 *
 * Go inspects the request by reflection; here a request is described by what
 * that inspection finds: whether its type has a `Token` field, and the value of
 * its `InstanceId` field when it has one.
 */
module Interceptors {
  import opened Wrappers

  datatype Request = Request(hasToken: bool, instanceId: Option<string>)

  const InvalidArguments: string := "invalid arguments"

  /** What the gate answers when it refuses a request. */
  const Refusal: Status := Status(InvalidArgument, InvalidArguments)

  /**
   * A request passes when it carries a token, when its type has no instance
   * field, or when its instance is on the allow-list.
   */
  predicate Admitted(instanceIDs: seq<string>, req: Request)
  {
    req.hasToken || req.instanceId.None? || req.instanceId.value in instanceIDs
  }

  /** The linear search that sets `allowed` and stops at the first match. */
  method IsAllowed(instanceIDs: seq<string>, req: Request) returns (allowed: bool)
    ensures allowed == Admitted(instanceIDs, req)
  {
    allowed := true;
    if !req.hasToken && req.instanceId.Some? {
      allowed := false;
      var i := 0;
      while i < |instanceIDs|
        invariant 0 <= i <= |instanceIDs|
        invariant !allowed
        invariant req.instanceId.value !in instanceIDs[..i]
      {
        if req.instanceId.value == instanceIDs[i] {
          allowed := true;
          break;
        }
        i := i + 1;
      }
      assert !allowed ==> instanceIDs[..i] == instanceIDs;
    }
  }

  /**
   * InstanceIdInterceptor: a refused request gets InvalidArgument and never
   * reaches the handler; an admitted one gets the handler's answer unchanged.
   * `handled` says whether the handler was called.
   */
  method InstanceIdInterceptor<R>(instanceIDs: seq<string>, req: Request, handler: Request -> Result<R, Status>)
    returns (answer: Result<R, Status>, handled: bool)
    ensures handled == Admitted(instanceIDs, req)
    ensures handled ==> answer == handler(req)
    ensures !handled ==> answer == Err(Refusal)
  {
    var allowed := IsAllowed(instanceIDs, req);
    if !allowed {
      return Err(Refusal), false;
    }
    answer := handler(req);
    handled := true;
  }

  /** An empty allow-list refuses every request that names an instance and carries no token. */
  lemma EmptyListRefuses(req: Request)
    ensures Admitted([], req) <==> req.hasToken || req.instanceId.None?
  {
  }
}
