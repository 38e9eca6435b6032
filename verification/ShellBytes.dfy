/** The request for a further shell byte by byte: which bytes carry which request, and what
    each other message is refused as. */
module ShellBytes {
  import opened Wrappers
  import opened Lists
  import opened ShellRequest

  /** The four bytes behind the mark, the lowest first. */
  function IdOf(message: seq<Byte>): nat
    requires |message| >= 5
  {
    var a: nat, b: nat, c: nat, d: nat := message[1], message[2], message[3], message[4];
    a + 0x100 * (b + 0x100 * (c + 0x100 * d))
  }

  /** Each argument with its NUL byte. */
  function Terminated(argv: seq<seq<Byte>>): seq<Byte> {
    if argv == [] then [] else argv[0] + [0] + Terminated(argv[1..])
  }

  function NulBytes(bytes: seq<Byte>): nat {
    if bytes == [] then 0 else (if bytes[0] == 0 then 1 else 0) + NulBytes(bytes[1..])
  }

  /** An `S`, the id, and the arguments of a command, the first not empty and none with a NUL
      byte of its own; and one descriptor. */
  ghost predicate Carries(message: seq<Byte>, fds: seq<nat>, request: Request) {
    && |message| >= 5 && message[0] == 0x53 && IdOf(message) == request.id && request.id > 0
    && message[5..] == Terminated(request.argv)
    && 1 <= |request.argv| <= 256 && request.argv[0] != []
    && (forall arg | arg in request.argv :: 0 !in arg)
    && fds == [request.follower]
  }

  /** The first thing that is wrong with a message. */
  predicate IsRefusedAs(message: seq<Byte>, fds: seq<nat>, id: nat, why: Why) {
    if |message| < 5 || message[0] != 0x53 then id == 0 && why == NotSpawn
    else
      && id == IdOf(message)
      && (if id == 0 then why == IdZero
          else if |fds| != 1 then why == NotOneDescriptor
          else if |message| == 5 then why == EmptyCommand
          else if message[|message| - 1] != 0 then why == NotTerminated
          else if NulBytes(message[5..]) > 256 then why == TooManyArgs
          else message[5] == 0 && why == EmptyProgram)
  }

  lemma {:induction false} TerminatedIsJoined(argv: seq<seq<Byte>>)
    requires argv != []
    ensures Terminated(argv) == Join(argv, 0) + [0]
  {
    if |argv| == 1 {
      assert argv[0] + [0] + [] == argv[0] + [0];
    } else {
      TerminatedIsJoined(argv[1..]);
      assert argv[0] + [0] + (Join(argv[1..], 0) + [0]) == argv[0] + [0] + Join(argv[1..], 0) + [0];
    }
  }

  lemma {:induction false} PartsAreCounted(bytes: seq<Byte>)
    ensures |Split(bytes, 0)| == NulBytes(bytes) + 1
    ensures bytes != [] ==> (Split(bytes, 0)[0] == [] <==> bytes[0] == 0)
  {
    if bytes != [] {
      PartsAreCounted(bytes[1..]);
    }
  }

  lemma {:induction false} OneNulMore(bytes: seq<Byte>)
    ensures NulBytes(bytes + [0]) == NulBytes(bytes) + 1
  {
    if bytes == [] {
      assert (bytes + [0])[1..] == [];
    } else {
      assert (bytes + [0])[1..] == bytes[1..] + [0];
      OneNulMore(bytes[1..]);
    }
  }

  lemma IdIsLittleEndian(message: seq<Byte>)
    requires |message| >= 5
    ensures FromLe(message[1..5]) == IdOf(message)
  {
  }

  lemma RendersAreBytes(message: seq<Byte>, fds: seq<nat>, request: Request)
    ensures Carries(message, fds, request) <==>
      WellFormed(request) && Render(request) == message && fds == [request.follower]
  {
    if request.argv != [] {
      TerminatedIsJoined(request.argv);
    }
    hide Terminated, Join, FromLe, ToLe, IdOf;
    if Carries(message, fds, request) {
      IdIsLittleEndian(message);
      LeInverse(message[1..5]);
      assert message == [message[0]] + message[1..5] + message[5..];
    }
    if WellFormed(request) && Render(request) == message {
      LeRoundTrip(request.id);
      IdIsLittleEndian(message);
      assert message[1..5] == ToLe(request.id) && message[5..] == Join(request.argv, 0) + [0];
    }
  }

  lemma ParsedAsCarried(message: seq<Byte>, fds: seq<nat>, request: Request)
    ensures Parse(message, fds) == Success(request) <==> Carries(message, fds, request)
  {
    hide Parse, Render;
    RendersAreBytes(message, fds, request);
    if Parse(message, fds).Success? {
      RenderOfParse(message, fds);
    }
    if WellFormed(request) && Render(request) == message && fds == [request.follower] {
      ParseOfRender(request);
    }
  }

  lemma RefusedByItsFault(message: seq<Byte>, fds: seq<nat>, id: nat, why: Why)
    ensures Parse(message, fds) == Failure(Malformed(id, why)) ==> IsRefusedAs(message, fds, id, why)
  {
    if |message| >= 5 {
      IdIsLittleEndian(message);
      hide FromLe, IdOf, Split, NulBytes;
      var body := message[5..];
      if body != [] && body[|body| - 1] == 0 {
        var command := body[..|body| - 1];
        PartsAreCounted(command);
        OneNulMore(command);
        assert command + [0] == body;
        if command == [] {
          assert Split(command, 0)[0] == [] by { NothingToSplit(); }
        }
      }
    }
  }

  lemma NothingToSplit()
    ensures Split<Byte>([], 0) == [[]]
  {
  }

  /** A message that arrived whole, in at most sixteen kilobytes, is the request it carries, or
      refused by its first fault; one that did not is refused as that, under the id if its
      bytes came. */
  lemma MessagesByteByByte(buffer: seq<Byte>, fds: seq<nat>, length: nat, cut: bool, request: Request, id: nat,
                           why: Why)
    requires length <= |buffer|
    ensures Incoming(buffer, fds, length, cut) == Success(request) <==>
      !cut && length <= 16384 && Carries(buffer[..length], fds, request)
    ensures !cut && length <= 16384 && Incoming(buffer, fds, length, cut) == Failure(Malformed(id, why)) ==>
      IsRefusedAs(buffer[..length], fds, id, why)
    ensures cut || length > 16384 ==>
      Incoming(buffer, fds, length, cut) == Failure(Malformed(if length >= 5 then IdOf(buffer) else 0, DoesNotFit))
  {
    hide Parse, Carries, IsRefusedAs;
    ParsedAsCarried(buffer[..length], fds, request);
    RefusedByItsFault(buffer[..length], fds, id, why);
  }
}
