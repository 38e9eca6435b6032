/** `HUMANITL_BRIDGES`: the hand-written reader of one JSON shape.

    Positions count characters; an error names the byte, as the program does. The
    functions say what each method of the reader finds at a position; the class is
    the reader itself, with the one position it moves. */
module BridgeJson {
  import opened Wrappers
  import opened BridgeList

  /** What a reading function found, and where it stopped. */
  datatype Out<+T> = Ok(value: T, at: nat) | Err(error: Error)

  // ---- characters --------------------------------------------------------------------

  predicate IsWs(c: char) { c == ' ' || c == '\t' || c == '\n' || c == '\r' }

  /** The control characters of Unicode: C0, delete and C1. */
  predicate IsControl(c: char) { c < ' ' || 0x7F <= c as int <= 0x9F }

  function Digit(c: char): Option<nat> {
    if '0' <= c <= '9' then Some(c as nat - '0' as nat)
    else if 'a' <= c <= 'f' then Some(c as nat - 'a' as nat + 10)
    else if 'A' <= c <= 'F' then Some(c as nat - 'A' as nat + 10)
    else None
  }

  function ShortEscape(letter: char): Option<char> {
    if letter == '"' || letter == '\\' || letter == '/' then Some(letter)
    else if letter == 'b' then Some('\U{8}')
    else if letter == 'f' then Some('\U{c}')
    else if letter == 'n' then Some('\n')
    else if letter == 'r' then Some('\r')
    else if letter == 't' then Some('\t')
    else None
  }

  predicate IsHigh(unit: nat) { 0xD800 <= unit < 0xDC00 }

  predicate IsLow(unit: nat) { 0xDC00 <= unit < 0xE000 }

  /** The character of a surrogate pair. */
  function Combine(high: nat, low: nat): nat
    requires IsHigh(high) && IsLow(low)
  {
    0x1_0000 + (high - 0xD800) * 0x400 + (low - 0xDC00)
  }

  function CharOf(code: nat): char
    requires code < 0x11_0000 && !IsHigh(code) && !IsLow(code)
  {
    code as char
  }

  // ---- positions ---------------------------------------------------------------------

  function Utf8Length(c: char): nat {
    if c as int < 0x80 then 1 else if c as int < 0x800 then 2 else if c as int < 0x1_0000 then 3 else 4
  }

  /** How many bytes the first `pos` characters take. */
  function Offset(text: string, pos: nat): nat
    requires pos <= |text|
  {
    if pos == 0 then 0 else Offset(text, pos - 1) + Utf8Length(text[pos - 1])
  }

  function Fail(text: string, pos: nat, what: string): Error
    requires pos <= |text|
  {
    Json(Offset(text, pos), what)
  }

  predicate Sees(text: string, pos: nat, c: char) { pos < |text| && text[pos] == c }

  /** Where `next` stops: one further, unless the text is over. */
  function After(text: string, pos: nat): (r: nat)
    requires pos <= |text|
    ensures pos <= r <= |text|
  {
    if pos < |text| then pos + 1 else pos
  }

  /** The first position at or behind `pos` that is not whitespace. */
  function SkipWsFrom(text: string, pos: nat): (r: nat)
    requires pos <= |text|
    ensures pos <= r <= |text|
    ensures forall i | pos <= i < r :: IsWs(text[i])
    ensures r < |text| ==> !IsWs(text[r])
    decreases |text| - pos
  {
    if pos < |text| && IsWs(text[pos]) then SkipWsFrom(text, pos + 1) else pos
  }

  // ---- strings -----------------------------------------------------------------------

  /** `n` further hexadecimal digits behind those that made `value`. */
  function HexAt(text: string, pos: nat, n: nat, value: nat): (r: Out<nat>)
    requires pos <= |text|
    ensures r.Ok? ==> r.at == pos + n <= |text|
    decreases n
  {
    if n == 0 then Ok(value, pos)
    else if pos == |text| then Err(Fail(text, pos, "expected four hex digits"))
    else
      match Digit(text[pos])
      case None => Err(Fail(text, pos + 1, "expected four hex digits"))
      case Some(digit) => HexAt(text, pos + 1, n - 1, 0x10 * value + digit)
  }

  function Hex4At(text: string, pos: nat): (r: Out<nat>)
    requires pos <= |text|
    ensures r.Ok? ==> r.at == pos + 4 <= |text| && r.value < 0x1_0000
  {
    HexBound(text, pos);
    HexAt(text, pos, 4, 0)
  }

  lemma {:induction false} HexStep(text: string, pos: nat, n: nat, value: nat)
    requires pos < |text| && Digit(text[pos]).Some?
    ensures HexAt(text, pos, n + 1, value) == HexAt(text, pos + 1, n, 0x10 * value + Digit(text[pos]).value)
  {
  }

  lemma {:induction false} HexStops(text: string, pos: nat, n: nat, value: nat)
    requires pos <= |text|
    ensures HexAt(text, pos, n, value).Ok? ==>
      pos + n <= |text| && forall i | pos <= i < pos + n :: Digit(text[i]).Some?
    ensures n == 0 ==> HexAt(text, pos, n, value) == Ok(value, pos)
    decreases n
  {
    if n > 0 && pos < |text| && Digit(text[pos]).Some? {
      HexStops(text, pos + 1, n - 1, 0x10 * value + Digit(text[pos]).value);
    }
  }

  lemma HexBound(text: string, pos: nat)
    requires pos <= |text|
    ensures HexAt(text, pos, 4, 0).Ok? ==> HexAt(text, pos, 4, 0).value < 0x1_0000
  {
    HexStops(text, pos, 4, 0);
    hide HexAt, Digit;
    if HexAt(text, pos, 4, 0).Ok? {
      DigitsAreSmall(text, pos);
      var a := Digit(text[pos]).value;
      var b := 0x10 * a + Digit(text[pos + 1]).value;
      var c := 0x10 * b + Digit(text[pos + 2]).value;
      HexStep(text, pos, 3, 0);
      HexStep(text, pos + 1, 2, a);
      HexStep(text, pos + 2, 1, b);
      HexStep(text, pos + 3, 0, c);
      HexStops(text, pos + 4, 0, 0x10 * c + Digit(text[pos + 3]).value);
    }
  }

  lemma DigitsAreSmall(text: string, pos: nat)
    requires pos + 4 <= |text|
    ensures forall i | pos <= i < pos + 4 && Digit(text[i]).Some? :: Digit(text[i]).value < 0x10
  {
  }

  /** The escape whose backslash stands just before `pos`. */
  function EscapeAt(text: string, pos: nat): (r: Out<char>)
    requires pos <= |text|
    ensures r.Ok? ==> pos < r.at <= |text|
  {
    if pos == |text| then Err(Fail(text, pos, "bad escape"))
    else if ShortEscape(text[pos]).Some? then Ok(ShortEscape(text[pos]).value, pos + 1)
    else if text[pos] != 'u' then Err(Fail(text, pos + 1, "bad escape"))
    else
      match Hex4At(text, pos + 1)
      case Err(error) => Err(error)
      case Ok(unit, at) =>
        if IsHigh(unit) then LowAt(text, at, unit)
        else if IsLow(unit) then Err(Fail(text, at, "lone surrogate"))
        else Ok(CharOf(unit), at)
  }

  /** The second half of a pair whose first half is `high`. */
  function LowAt(text: string, pos: nat, high: nat): (r: Out<char>)
    requires pos <= |text| && IsHigh(high)
    ensures r.Ok? ==> pos < r.at <= |text|
  {
    if !Sees(text, pos, '\\') then Err(Fail(text, pos, "expected the low surrogate"))
    else if !Sees(text, pos + 1, 'u') then Err(Fail(text, pos + 1, "expected the low surrogate"))
    else
      match Hex4At(text, pos + 2)
      case Err(error) => Err(error)
      case Ok(low, at) =>
        if !IsLow(low) then Err(Fail(text, at, "bad low surrogate"))
        else Ok(CharOf(Combine(high, low)), at)
  }

  /** The rest of a string of which `out` is read. */
  function TailAt(text: string, pos: nat, out: string): (r: Out<string>)
    requires pos <= |text|
    ensures r.Ok? ==> pos < r.at <= |text|
    decreases |text| - pos
  {
    if pos == |text| then Err(Fail(text, pos, "unterminated string"))
    else if text[pos] == '"' then Ok(out, pos + 1)
    else if text[pos] == '\\' then
      match EscapeAt(text, pos + 1)
      case Err(error) => Err(error)
      case Ok(c, at) => TailAt(text, at, out + [c])
    else if IsControl(text[pos]) then Err(Fail(text, pos + 1, "control character in string"))
    else TailAt(text, pos + 1, out + [text[pos]])
  }

  function StringAt(text: string, pos: nat): (r: Out<string>)
    requires pos <= |text|
    ensures r.Ok? ==> pos < r.at <= |text|
  {
    if !Sees(text, pos, '"') then Err(Fail(text, pos, "expected a string")) else TailAt(text, pos + 1, "")
  }

  // ---- objects -----------------------------------------------------------------------

  /** The four fields as far as they are read. */
  datatype Slots = Slots(name: Option<string>, dir: Option<string>, listen: Option<string>, socket: Option<string>)

  const NO_SLOTS := Slots(None, None, None, None)

  function Put(slots: Slots, key: string, value: string): Result<Slots, Error> {
    if key == "name" then
      if slots.name.Some? then Failure(DuplicateField(key)) else Success(slots.(name := Some(value)))
    else if key == "dir" then
      if slots.dir.Some? then Failure(DuplicateField(key)) else Success(slots.(dir := Some(value)))
    else if key == "listen" then
      if slots.listen.Some? then Failure(DuplicateField(key)) else Success(slots.(listen := Some(value)))
    else if key == "socket" then
      if slots.socket.Some? then Failure(DuplicateField(key)) else Success(slots.(socket := Some(value)))
    else Failure(UnknownField(key))
  }

  function Finish(read: ReadAddress, slots: Slots): Result<Bridge, Error> {
    if slots.name.None? then Failure(MissingField("name"))
    else if slots.dir.None? then Failure(MissingField("dir"))
    else if slots.listen.None? then Failure(MissingField("listen"))
    else if slots.socket.None? then Failure(MissingField("socket"))
    else NewBridge(read, slots.name.value, slots.dir.value, slots.listen.value, slots.socket.value)
  }

  /** One key and its value, without the whitespace behind them. */
  function PairAt(text: string, pos: nat): (r: Out<(string, string)>)
    requires pos <= |text|
    ensures r.Ok? ==> pos < r.at <= |text|
  {
    match StringAt(text, SkipWsFrom(text, pos))
    case Err(error) => Err(error)
    case Ok(key, at) =>
      var colon := SkipWsFrom(text, at);
      if !Sees(text, colon, ':') then Err(Fail(text, colon, "expected ':'"))
      else
        match StringAt(text, SkipWsFrom(text, colon + 1))
        case Err(error) => Err(error)
        case Ok(value, end) => Ok((key, value), end)
  }

  /** The fields of an object from one key on, up to its closing brace. */
  function FieldsAt(text: string, pos: nat, slots: Slots): (r: Out<Slots>)
    requires pos <= |text|
    ensures r.Ok? ==> pos < r.at <= |text|
    decreases |text| - pos
  {
    match PairAt(text, pos)
    case Err(error) => Err(error)
    case Ok(pair, at) =>
      match Put(slots, pair.0, pair.1)
      case Failure(error) => Err(error)
      case Success(filled) =>
        var end := SkipWsFrom(text, at);
        if Sees(text, end, ',') then FieldsAt(text, end + 1, filled)
        else if Sees(text, end, '}') then Ok(filled, end + 1)
        else Err(Fail(text, After(text, end), "expected ',' or '}'"))
  }

  function ObjectAt(read: ReadAddress, text: string, pos: nat): (r: Out<Bridge>)
    requires pos <= |text|
    ensures r.Ok? ==> pos < r.at <= |text|
  {
    if !Sees(text, pos, '{') then Err(Fail(text, pos, "expected '{'"))
    else if Sees(text, SkipWsFrom(text, pos + 1), '}') then Err(MissingField("name"))
    else
      match FieldsAt(text, SkipWsFrom(text, pos + 1), NO_SLOTS)
      case Err(error) => Err(error)
      case Ok(slots, at) =>
        match Finish(read, slots)
        case Failure(error) => Err(error)
        case Success(bridge) => Ok(bridge, at)
  }

  /** The objects of the list from one on, up to the closing bracket. */
  function ItemsAt(read: ReadAddress, text: string, pos: nat, bridges: seq<Bridge>): (r: Out<seq<Bridge>>)
    requires pos <= |text|
    ensures r.Ok? ==> pos < r.at <= |text|
    decreases |text| - pos
  {
    match ObjectAt(read, text, SkipWsFrom(text, pos))
    case Err(error) => Err(error)
    case Ok(bridge, at) =>
      var end := SkipWsFrom(text, at);
      if Sees(text, end, ',') then ItemsAt(read, text, end + 1, bridges + [bridge])
      else if Sees(text, end, ']') then Ok(bridges + [bridge], end + 1)
      else Err(Fail(text, After(text, end), "expected ',' or ']'"))
  }

  /** One round of either loop. */
  lemma {:induction false} FieldsNext(text: string, pos: nat, slots: Slots)
    requires pos <= |text|
    ensures var pair := PairAt(text, pos);
      if pair.Err? then FieldsAt(text, pos, slots) == Err(pair.error)
      else
        var filled := Put(slots, pair.value.0, pair.value.1);
        var end := SkipWsFrom(text, pair.at);
        FieldsAt(text, pos, slots) ==
          if filled.Failure? then Err(filled.error)
          else if Sees(text, end, ',') then FieldsAt(text, end + 1, filled.value)
          else if Sees(text, end, '}') then Ok(filled.value, end + 1)
          else Err(Fail(text, After(text, end), "expected ',' or '}'"))
  {
    hide PairAt, Put, SkipWsFrom, Sees, After, Fail;
  }

  lemma {:induction false} ItemsNext(read: ReadAddress, text: string, pos: nat, bridges: seq<Bridge>)
    requires pos <= |text|
    ensures var bridge := ObjectAt(read, text, SkipWsFrom(text, pos));
      if bridge.Err? then ItemsAt(read, text, pos, bridges) == Err(bridge.error)
      else
        var end, more := SkipWsFrom(text, bridge.at), bridges + [bridge.value];
        ItemsAt(read, text, pos, bridges) ==
          if Sees(text, end, ',') then ItemsAt(read, text, end + 1, more)
          else if Sees(text, end, ']') then Ok(more, end + 1)
          else Err(Fail(text, After(text, end), "expected ',' or ']'"))
  {
    hide ObjectAt, SkipWsFrom, Sees, After, Fail;
  }

  function ListAt(read: ReadAddress, text: string, pos: nat): (r: Out<seq<Bridge>>)
    requires pos <= |text|
    ensures r.Ok? ==> pos < r.at <= |text|
  {
    var first := SkipWsFrom(text, pos);
    if Sees(text, first, ']') then Ok([], first + 1) else ItemsAt(read, text, first, [])
  }

  function Parsed(read: ReadAddress, text: string): Result<seq<Bridge>, Error> {
    var start := SkipWsFrom(text, 0);
    if !Sees(text, start, '[') then Failure(Fail(text, start, "expected '['"))
    else
      match ListAt(read, text, start + 1)
      case Err(error) => Failure(error)
      case Ok(bridges, at) =>
        var end := SkipWsFrom(text, at);
        if end != |text| then Failure(Fail(text, end, "trailing data")) else Success(bridges)
  }

  // ---- the reader --------------------------------------------------------------------

  /** What a reading method owes: the value and the new position, or the error. */
  predicate Agrees<T(==)>(r: Result<T, Error>, pos: nat, spec: Out<T>) {
    if spec.Ok? then r == Success(spec.value) && pos == spec.at else r == Failure(spec.error)
  }

  class Parser {
    const text: string
    const read: ReadAddress
    var pos: nat

    constructor (text: string, read: ReadAddress)
      ensures this.text == text && this.read == read && pos == 0
    {
      this.text, this.read, pos := text, read, 0;
    }

    predicate Inside() reads this { pos <= |text| }

    function Error(what: string): BridgeList.Error
      requires Inside()
      reads this
    {
      Fail(text, pos, what)
    }

    function Peek(): Option<char>
      requires Inside()
      reads this
    {
      if pos < |text| then Some(text[pos]) else None
    }

    method Next() returns (c: Option<char>)
      requires Inside()
      modifies this
      ensures Inside() && pos == After(text, old(pos)) && c == old(Peek())
    {
      c := Peek();
      if c.Some? {
        pos := pos + 1;
      }
    }

    method SkipWs()
      requires Inside()
      modifies this
      ensures Inside() && pos == SkipWsFrom(text, old(pos))
    {
      while pos < |text| && IsWs(text[pos])
        invariant Inside() && SkipWsFrom(text, old(pos)) == SkipWsFrom(text, pos)
      {
        pos := pos + 1;
      }
    }

    method Expect(want: char, what: string) returns (r: Result<(), BridgeList.Error>)
      requires Inside()
      modifies this
      ensures Inside()
      ensures if Sees(text, old(pos), want) then r == Success(()) && pos == old(pos) + 1
              else r == Failure(Fail(text, old(pos), what)) && pos == old(pos)
    {
      if Peek() == Some(want) {
        pos := pos + 1;
        return Success(());
      }
      return Failure(Error(what));
    }

    method Hex4() returns (r: Result<nat, BridgeList.Error>)
      requires Inside()
      modifies this
      ensures Inside() && Agrees(r, pos, Hex4At(text, old(pos)))
    {
      var value: nat := 0;
      for i := 0 to 4
        invariant 0 <= i <= 4 && Inside()
        invariant HexAt(text, old(pos), 4, 0) == HexAt(text, pos, 4 - i, value)
      {
        var c := Next();
        if c.None? || Digit(c.value).None? {
          return Failure(Error("expected four hex digits"));
        }
        value := 0x10 * value + Digit(c.value).value;
      }
      return Success(value);
    }

    method Escape() returns (r: Result<char, BridgeList.Error>)
      requires Inside()
      modifies this
      ensures Inside() && Agrees(r, pos, EscapeAt(text, old(pos)))
    {
      var c := Next();
      if c.None? {
        return Failure(Error("bad escape"));
      }
      if ShortEscape(c.value).Some? {
        return Success(ShortEscape(c.value).value);
      }
      if c.value != 'u' {
        return Failure(Error("bad escape"));
      }
      var unit := Hex4();
      if unit.Failure? {
        return Failure(unit.error);
      }
      if IsHigh(unit.value) {
        r := Low(unit.value);
        return;
      }
      if IsLow(unit.value) {
        return Failure(Error("lone surrogate"));
      }
      return Success(CharOf(unit.value));
    }

    method Low(high: nat) returns (r: Result<char, BridgeList.Error>)
      requires Inside() && IsHigh(high)
      modifies this
      ensures Inside() && Agrees(r, pos, LowAt(text, old(pos), high))
    {
      var backslash := Expect('\\', "expected the low surrogate");
      if backslash.Failure? {
        return Failure(backslash.error);
      }
      var letter := Expect('u', "expected the low surrogate");
      if letter.Failure? {
        return Failure(letter.error);
      }
      var low := Hex4();
      if low.Failure? {
        return Failure(low.error);
      }
      if !IsLow(low.value) {
        return Failure(Error("bad low surrogate"));
      }
      return Success(CharOf(Combine(high, low.value)));
    }

    method String() returns (r: Result<string, BridgeList.Error>)
      requires Inside()
      modifies this
      ensures Inside() && Agrees(r, pos, StringAt(text, old(pos)))
    {
      var quote := Expect('"', "expected a string");
      if quote.Failure? {
        return Failure(quote.error);
      }
      var out := "";
      while true
        invariant Inside() && Sees(text, old(pos), '"')
        invariant TailAt(text, old(pos) + 1, "") == TailAt(text, pos, out)
        decreases |text| - pos
      {
        var c := Next();
        if c.None? {
          return Failure(Error("unterminated string"));
        } else if c.value == '"' {
          return Success(out);
        } else if c.value == '\\' {
          var escaped := Escape();
          if escaped.Failure? {
            return Failure(escaped.error);
          }
          out := out + [escaped.value];
        } else if IsControl(c.value) {
          return Failure(Error("control character in string"));
        } else {
          out := out + [c.value];
        }
      }
    }

    method Pair() returns (r: Result<(string, string), BridgeList.Error>)
      requires Inside()
      modifies this
      ensures Inside() && Agrees(r, pos, PairAt(text, old(pos)))
    {
      SkipWs();
      var key := String();
      if key.Failure? {
        return Failure(key.error);
      }
      SkipWs();
      var colon := Expect(':', "expected ':'");
      if colon.Failure? {
        return Failure(colon.error);
      }
      SkipWs();
      var value := String();
      if value.Failure? {
        return Failure(value.error);
      }
      return Success((key.value, value.value));
    }

    method Object() returns (r: Result<Bridge, BridgeList.Error>)
      requires Inside()
      modifies this
      ensures Inside() && Agrees(r, pos, ObjectAt(read, text, old(pos)))
    {
      hide PairAt, StringAt, SkipWsFrom, Fail, Finish, FieldsAt;
      var brace := Expect('{', "expected '{'");
      if brace.Failure? {
        return Failure(brace.error);
      }
      var name, dir, listen, socket := None, None, None, None;
      SkipWs();
      if Peek() == Some('}') {
        return Failure(MissingField("name"));
      }
      ghost var start := pos;
      while true
        invariant Inside() && Sees(text, old(pos), '{')
        invariant FieldsAt(text, start, NO_SLOTS) == FieldsAt(text, pos, Slots(name, dir, listen, socket))
        decreases |text| - pos
      {
        ghost var slots := Slots(name, dir, listen, socket);
        FieldsNext(text, pos, slots);
        var pair := Pair();
        if pair.Failure? {
          return Failure(pair.error);
        }
        var (key, value) := pair.value;
        if key == "name" {
          if name.Some? { return Failure(DuplicateField("name")); }
          name := Some(value);
        } else if key == "dir" {
          if dir.Some? { return Failure(DuplicateField("dir")); }
          dir := Some(value);
        } else if key == "listen" {
          if listen.Some? { return Failure(DuplicateField("listen")); }
          listen := Some(value);
        } else if key == "socket" {
          if socket.Some? { return Failure(DuplicateField("socket")); }
          socket := Some(value);
        } else {
          return Failure(UnknownField(key));
        }
        assert Put(slots, key, value) == Success(Slots(name, dir, listen, socket));
        SkipWs();
        var c := Next();
        if c == Some('}') {
          r := Finish(read, Slots(name, dir, listen, socket));
          return;
        } else if c != Some(',') {
          return Failure(Error("expected ',' or '}'"));
        }
      }
    }

    /** The objects of the list, up to its closing bracket. */
    method Items() returns (r: Result<seq<Bridge>, BridgeList.Error>)
      requires Inside()
      modifies this
      ensures Inside() && Agrees(r, pos, ItemsAt(read, text, old(pos), []))
    {
      hide ObjectAt, SkipWsFrom, Fail, ItemsAt;
      var bridges := [];
      while true
        invariant Inside() && ItemsAt(read, text, old(pos), []) == ItemsAt(read, text, pos, bridges)
        decreases |text| - pos
      {
        ItemsNext(read, text, pos, bridges);
        SkipWs();
        var bridge := Object();
        if bridge.Failure? {
          return Failure(bridge.error);
        }
        bridges := bridges + [bridge.value];
        SkipWs();
        var c := Next();
        if c == Some(']') {
          return Success(bridges);
        } else if c != Some(',') {
          return Failure(Error("expected ',' or ']'"));
        }
      }
    }
  }

  /** `parse`: the whole text is one list. */
  method Parse(read: ReadAddress, text: string) returns (r: Result<seq<Bridge>, Error>)
    ensures r == Parsed(read, text)
  {
    hide ItemsAt, SkipWsFrom, Fail;
    var parser := new Parser(text, read);
    parser.SkipWs();
    var bracket := parser.Expect('[', "expected '['");
    if bracket.Failure? {
      return Failure(bracket.error);
    }
    var bridges := [];
    parser.SkipWs();
    if parser.Peek() == Some(']') {
      parser.pos := parser.pos + 1;
    } else {
      var items := parser.Items();
      if items.Failure? {
        return Failure(items.error);
      }
      bridges := items.value;
    }
    parser.SkipWs();
    if parser.pos != |text| {
      return Failure(parser.Error("trailing data"));
    }
    return Success(bridges);
  }
}
