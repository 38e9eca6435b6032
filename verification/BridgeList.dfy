/** The bridges the launcher asks for, and what makes a list of them acceptable. */
module BridgeList {
  import opened Wrappers

  datatype Direction = In | Out

  /** What the shim needs of a socket address. */
  datatype Address = Address(loopback: bool, port: nat)

  /** `SocketAddr::from_str`, whose body is not part of this model. */
  type ReadAddress = string -> Option<Address>

  datatype Bridge = Bridge(name: string, dir: Direction, listen: Address, socket: string)

  datatype Error =
    | Json(offset: nat, what: string)
    | UnknownField(key: string)
    | DuplicateField(field: string)
    | MissingField(field: string)
    | EmptyName
    | BadDirection(dir: string)
    | BadListen(listen: string)
    | SocketNotAbsolute(socket: string)
    | OutNotSupported(name: string)
    | TooManyBridges(count: nat)
    | NoBridgeForProxyPort(port: nat)

  predicate IsAbsolute(path: string) { path != "" && path[0] == '/' }

  /** `Bridge::new`. */
  function NewBridge(read: ReadAddress, name: string, dir: string, listen: string, socket: string)
    : Result<Bridge, Error>
  {
    if name == "" then Failure(EmptyName)
    else if dir != "in" && dir != "out" then Failure(BadDirection(dir))
    else
      match read(listen)
      case None => Failure(BadListen(listen))
      case Some(address) =>
        if !IsAbsolute(socket) then Failure(SocketNotAbsolute(socket))
        else Success(Bridge(name, if dir == "in" then In else Out, address, socket))
  }

  /** Checks the list before anything is bound. */
  method Validate(bridges: seq<Bridge>, port: nat) returns (r: Result<(), Error>)
    ensures r.Success? <==> |bridges| == 1 && bridges[0].dir == In && bridges[0].listen.port == port
    ensures r.Failure? && r.error.OutNotSupported? <==> exists b :: b in bridges && b.dir == Out
    ensures r.Failure? && r.error.OutNotSupported? ==>
      exists i | 0 <= i < |bridges| :: bridges[i].dir == Out && bridges[i].name == r.error.name
        && forall j | 0 <= j < i :: bridges[j].dir == In
    ensures r.Failure? && !r.error.OutNotSupported? && |bridges| > 1 ==> r.error == TooManyBridges(|bridges|)
    ensures r.Failure? && !r.error.OutNotSupported? && |bridges| <= 1 ==> r.error == NoBridgeForProxyPort(port)
  {
    for i := 0 to |bridges|
      invariant forall j | 0 <= j < i :: bridges[j].dir == In
    {
      if bridges[i].dir == Out {
        assert bridges[i] in bridges;
        return Failure(OutNotSupported(bridges[i].name));
      }
    }
    assert forall b | b in bridges :: b.dir == In;
    if |bridges| > 1 {
      return Failure(TooManyBridges(|bridges|));
    }
    for i := 0 to |bridges|
      invariant forall j | 0 <= j < i :: bridges[j].listen.port != port
    {
      if bridges[i].dir == In && bridges[i].listen.port == port {
        return Success(());
      }
    }
    return Failure(NoBridgeForProxyPort(port));
  }
}
