/** The wire format of a request for a further shell: parsed, and rendered back. */
module ShellRequest {
  import opened Wrappers
  import opened Lists

  type Byte = x: int | 0 <= x < 256

  const MARK_SPAWN: Byte := 'S' as int
  const MAX_ARGS: nat := 256
  const MAX_REQUEST: nat := 16 * 1024

  /** `follower` is the one descriptor that came along. */
  datatype Request = Request(id: nat, argv: seq<seq<Byte>>, follower: nat)

  datatype Why = NotSpawn | IdZero | NotOneDescriptor | EmptyCommand | NotTerminated | TooManyArgs | EmptyProgram
               | DoesNotFit

  datatype Malformed = Malformed(id: nat, why: Why)

  function FromLe(b: seq<Byte>): nat
    requires |b| == 4
  {
    b[0] as nat + 0x100 * (b[1] as nat) + 0x1_0000 * (b[2] as nat) + 0x100_0000 * (b[3] as nat)
  }

  function ToLe(n: nat): (b: seq<Byte>)
    requires n < 0x1_0000_0000
    ensures |b| == 4
  {
    [n % 256, n / 0x100 % 256, n / 0x1_0000 % 256, n / 0x100_0000]
  }

  /** Parses one message and its descriptors. */
  function Parse(payload: seq<Byte>, fds: seq<nat>): Result<Request, Malformed> {
    if |payload| < 5 || payload[0] != MARK_SPAWN then Failure(Malformed(0, NotSpawn))
    else
      var id := FromLe(payload[1..5]);
      var body := payload[5..];
      if id == 0 then Failure(Malformed(id, IdZero))
      else if |fds| != 1 then Failure(Malformed(id, NotOneDescriptor))
      else if body == [] then Failure(Malformed(id, EmptyCommand))
      else if body[|body| - 1] != 0 then Failure(Malformed(id, NotTerminated))
      else
        var parts := Split(body[..|body| - 1], 0);
        if |parts| > MAX_ARGS then Failure(Malformed(id, TooManyArgs))
        else if parts[0] == [] then Failure(Malformed(id, EmptyProgram))
        else Success(Request(id, parts, fds[0]))
  }

  /** What the daemon writes: the mark, the id, each argument with a NUL behind it. */
  function Render(request: Request): seq<Byte>
    requires request.id < 0x1_0000_0000 && request.argv != []
  {
    [MARK_SPAWN] + ToLe(request.id) + Join(request.argv, 0) + [0]
  }

  /** A request the format can carry. */
  ghost predicate WellFormed(request: Request) {
    && 0 < request.id < 0x1_0000_0000
    && 0 < |request.argv| <= MAX_ARGS
    && request.argv[0] != []
    && forall arg | arg in request.argv :: 0 !in arg
  }

  lemma LeRoundTrip(n: nat)
    requires n < 0x1_0000_0000
    ensures FromLe(ToLe(n)) == n
  {
  }

  lemma LeInverse(b: seq<Byte>)
    requires |b| == 4
    ensures FromLe(b) < 0x1_0000_0000 && ToLe(FromLe(b)) == b
  {
    var n := FromLe(b);
    assert n / 0x100 == b[1] as nat + 0x100 * (b[2] as nat) + 0x1_0000 * (b[3] as nat);
    assert n / 0x1_0000 == b[2] as nat + 0x100 * (b[3] as nat);
    assert n / 0x100_0000 == b[3];
  }

  /** What was rendered parses back, descriptor and all. */
  lemma ParseOfRender(request: Request)
    requires WellFormed(request)
    ensures Parse(Render(request), [request.follower]) == Success(request)
  {
    var payload := Render(request);
    var joined := Join(request.argv, 0);
    var body := payload[5..];
    assert payload[1..5] == ToLe(request.id);
    assert body == joined + [0] && body[..|body| - 1] == joined;
    LeRoundTrip(request.id);
    SplitOfJoin(request.argv, 0);
  }

  /** And nothing else parses: an accepted message is the rendering of what it was
      accepted as. So the format is one-to-one, and a request is refused exactly when
      it renders no well-formed one. */
  lemma RenderOfParse(payload: seq<Byte>, fds: seq<nat>)
    requires Parse(payload, fds).Success?
    ensures var request := Parse(payload, fds).value;
      WellFormed(request) && Render(request) == payload && fds == [request.follower]
  {
    var request := Parse(payload, fds).value;
    var body := payload[5..];
    JoinOfSplit(body[..|body| - 1], 0);
    LeInverse(payload[1..5]);
    assert payload == [payload[0]] + payload[1..5] + body[..|body| - 1] + [0];
  }

  lemma RefusedExactlyWhenNotRendered(payload: seq<Byte>, fds: seq<nat>)
    ensures Parse(payload, fds).Failure? <==>
      !exists request :: WellFormed(request) && Render(request) == payload && fds == [request.follower]
  {
    if Parse(payload, fds).Success? {
      RenderOfParse(payload, fds);
    } else {
      forall request | WellFormed(request) && Render(request) == payload && fds == [request.follower]
        ensures false
      {
        ParseOfRender(request);
      }
    }
  }

  /** One received message: what did not fit is malformed, under its own id if it got
      that far. `length` is what the kernel delivered, `cut` its truncation flags. */
  function Incoming(buffer: seq<Byte>, fds: seq<nat>, length: nat, cut: bool): Result<Request, Malformed>
    requires length <= |buffer|
  {
    if cut || length > MAX_REQUEST then
      Failure(Malformed(if length >= 5 then FromLe(buffer[1..5]) else 0, DoesNotFit))
    else Parse(buffer[..length], fds)
  }

  /** A request is taken from a message exactly when it arrived whole and renders it,
      so a refusal names the id of its request whenever four bytes of it came. */
  lemma IncomingIsExact(buffer: seq<Byte>, fds: seq<nat>, length: nat, cut: bool, request: Request)
    requires length <= |buffer|
    ensures Incoming(buffer, fds, length, cut) == Success(request) <==>
      !cut && length <= MAX_REQUEST && WellFormed(request) && Render(request) == buffer[..length]
      && fds == [request.follower]
    ensures Incoming(buffer, fds, length, cut).Failure? && length >= 5 && buffer[0] == MARK_SPAWN ==>
      Incoming(buffer, fds, length, cut).error.id == FromLe(buffer[1..5])
  {
    if !cut && length <= MAX_REQUEST {
      assert length >= 5 ==> buffer[..length][1..5] == buffer[1..5];
      if Parse(buffer[..length], fds).Success? {
        RenderOfParse(buffer[..length], fds);
      }
      if WellFormed(request) && Render(request) == buffer[..length] && fds == [request.follower] {
        ParseOfRender(request);
      }
    }
  }
}
