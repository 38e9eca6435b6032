/** What the reader accepts, said without reading: the documents of one JSON shape,
    their text with any whitespace, key order and escapes, and what they mean.

    The two main results make the reader exact: it finds the meaning of every
    document, and whatever it accepts is the text of one. */
module BridgeGrammar {
  import opened Wrappers
  import opened BridgeList
  import opened BridgeJson

  /** One character as section 7 of RFC 8259 lets a string spell it. */
  datatype Piece = Plain(c: char) | Short(letter: char) | Unit(digits: string) | Pair(high: string, low: string)

  /** A key and its value, with the whitespace around each. */
  datatype Field = Field(before: string, key: seq<Piece>, beforeColon: string, afterColon: string,
                         value: seq<Piece>, after: string)

  datatype Item = Item(before: string, fields: seq<Field>, after: string)

  /** `inner` is the whitespace of an empty list. */
  datatype Document = Document(before: string, items: seq<Item>, inner: string, after: string)

  // ---- valid documents -----------------------------------------------------------------

  ghost predicate AllWs(s: string) { forall i | 0 <= i < |s| :: IsWs(s[i]) }

  predicate FourDigits(d: string) { |d| == 4 && forall i | 0 <= i < 4 :: Digit(d[i]).Some? }

  function HexValue(d: string): (unit: nat)
    requires FourDigits(d)
    ensures unit < 0x1_0000
  {
    0x1000 * Digit(d[0]).value + 0x100 * Digit(d[1]).value + 0x10 * Digit(d[2]).value + Digit(d[3]).value
  }

  /** A plain character is no quote, no backslash and no control character; a single
      unit is no surrogate; a pair is a high and a low one. */
  predicate ValidPiece(p: Piece) {
    match p
    case Plain(c) => c != '"' && c != '\\' && !IsControl(c)
    case Short(letter) => ShortEscape(letter).Some?
    case Unit(digits) => FourDigits(digits) && !IsHigh(HexValue(digits)) && !IsLow(HexValue(digits))
    case Pair(high, low) => FourDigits(high) && FourDigits(low) && IsHigh(HexValue(high)) && IsLow(HexValue(low))
  }

  ghost predicate ValidPieces(pieces: seq<Piece>) { forall i | 0 <= i < |pieces| :: ValidPiece(pieces[i]) }

  ghost predicate ValidField(f: Field) {
    && AllWs(f.before) && AllWs(f.beforeColon) && AllWs(f.afterColon) && AllWs(f.after)
    && ValidPieces(f.key) && ValidPieces(f.value)
  }

  ghost predicate ValidFields(fields: seq<Field>) { forall i | 0 <= i < |fields| :: ValidField(fields[i]) }

  ghost predicate ValidItem(item: Item) {
    && AllWs(item.before) && AllWs(item.after)
    && item.fields != [] && ValidFields(item.fields)
  }

  ghost predicate ValidItems(items: seq<Item>) { forall i | 0 <= i < |items| :: ValidItem(items[i]) }

  ghost predicate Valid(d: Document) {
    AllWs(d.before) && AllWs(d.inner) && AllWs(d.after) && ValidItems(d.items)
  }

  // ---- their text ----------------------------------------------------------------------

  function PieceText(p: Piece): (s: string)
    ensures s != []
  {
    match p
    case Plain(c) => [c]
    case Short(letter) => ['\\', letter]
    case Unit(digits) => "\\u" + digits
    case Pair(high, low) => "\\u" + high + ("\\u" + low)
  }

  function PiecesText(pieces: seq<Piece>): string {
    if pieces == [] then "" else PieceText(pieces[0]) + PiecesText(pieces[1..])
  }

  function Literal(pieces: seq<Piece>): string { "\"" + (PiecesText(pieces) + "\"") }

  function PairText(f: Field): string {
    f.before + (Literal(f.key) + (f.beforeColon + (":" + (f.afterColon + Literal(f.value)))))
  }

  function FieldsText(fields: seq<Field>): string
    requires fields != []
  {
    var rest := if |fields| == 1 then "}" else "," + FieldsText(fields[1..]);
    PairText(fields[0]) + (fields[0].after + rest)
  }

  function ObjectText(fields: seq<Field>): string
    requires fields != []
  {
    "{" + FieldsText(fields)
  }

  function ItemsText(items: seq<Item>): string
    requires items != []
    requires ValidItems(items)
  {
    var rest := if |items| == 1 then "]" else "," + ItemsText(items[1..]);
    items[0].before + (ObjectText(items[0].fields) + (items[0].after + rest))
  }

  function Render(d: Document): string
    requires Valid(d)
  {
    d.before + ("[" + ((if d.items == [] then d.inner + "]" else ItemsText(d.items)) + d.after))
  }

  // ---- their meaning -------------------------------------------------------------------

  function PieceChar(p: Piece): char
    requires ValidPiece(p)
  {
    match p
    case Plain(c) => c
    case Short(letter) => ShortEscape(letter).value
    case Unit(digits) => CharOf(HexValue(digits))
    case Pair(high, low) => CharOf(Combine(HexValue(high), HexValue(low)))
  }

  function Spelled(pieces: seq<Piece>): string
    requires ValidPieces(pieces)
  {
    seq(|pieces|, i requires 0 <= i < |pieces| => PieceChar(pieces[i]))
  }

  /** The object's keys and values, in the order of the text. */
  function Pairs(fields: seq<Field>): seq<(string, string)>
    requires ValidFields(fields)
  {
    seq(|fields|, i requires 0 <= i < |fields| => (Spelled(fields[i].key), Spelled(fields[i].value)))
  }

  const FIELDS := ["name", "dir", "listen", "socket"]

  function Lookup(pairs: seq<(string, string)>, key: string): (value: Option<string>)
    ensures value.Some? <==> exists i | 0 <= i < |pairs| :: pairs[i].0 == key
    ensures value.Some? ==> (key, value.value) in pairs
  {
    if pairs == [] then None
    else
      var last := |pairs| - 1;
      if pairs[last].0 == key then Some(pairs[last].1) else Lookup(pairs[..last], key)
  }

  /** No key but the four, and none of them twice. */
  ghost predicate GoodKeys(pairs: seq<(string, string)>) {
    && (forall i | 0 <= i < |pairs| :: pairs[i].0 in FIELDS)
    && (forall i, j | 0 <= i < j < |pairs| :: pairs[i].0 != pairs[j].0)
  }

  /** The four keys, each once and no other, make the bridge. */
  ghost predicate ObjectMeans(read: ReadAddress, pairs: seq<(string, string)>, bridge: Bridge) {
    && GoodKeys(pairs)
    && Lookup(pairs, "name").Some? && Lookup(pairs, "dir").Some?
    && Lookup(pairs, "listen").Some? && Lookup(pairs, "socket").Some?
    && NewBridge(read, Lookup(pairs, "name").value, Lookup(pairs, "dir").value,
                 Lookup(pairs, "listen").value, Lookup(pairs, "socket").value) == Success(bridge)
  }

  ghost predicate ItemMeans(read: ReadAddress, item: Item, bridge: Bridge) {
    ValidItem(item) && ObjectMeans(read, Pairs(item.fields), bridge)
  }

  ghost predicate ItemsMean(read: ReadAddress, items: seq<Item>, bridges: seq<Bridge>) {
    |bridges| == |items| && forall i | 0 <= i < |items| :: ItemMeans(read, items[i], bridges[i])
  }

  ghost predicate Means(read: ReadAddress, d: Document, bridges: seq<Bridge>) {
    ItemsMean(read, d.items, bridges)
  }

  // ---- a text at a position --------------------------------------------------------------

  ghost predicate At(text: string, pos: nat, s: string) {
    pos + |s| <= |text| && text[pos..pos + |s|] == s
  }

  lemma AtSplit(text: string, pos: nat, a: string, b: string)
    ensures At(text, pos, a + b) <==> At(text, pos, a) && At(text, pos + |a|, b)
  {
    if At(text, pos, a + b) {
      assert text[pos..pos + |a|] == text[pos..pos + |a + b|][..|a|] == a;
      assert text[pos + |a|..pos + |a| + |b|] == text[pos..pos + |a + b|][|a|..] == b;
    }
    if At(text, pos, a) && At(text, pos + |a|, b) {
      assert text[pos..pos + |a + b|] == text[pos..pos + |a|] + text[pos + |a|..pos + |a| + |b|];
    }
  }

  lemma AtFirst(text: string, pos: nat, s: string)
    requires At(text, pos, s) && s != []
    ensures Sees(text, pos, s[0])
  {
    assert text[pos] == text[pos..pos + |s|][0];
  }

  /** Whitespace is skipped up to what follows it. */
  lemma WsSkipped(text: string, pos: nat, ws: string)
    requires pos <= |text| && At(text, pos, ws) && AllWs(ws)
    requires pos + |ws| < |text| ==> !IsWs(text[pos + |ws|])
    ensures SkipWsFrom(text, pos) == pos + |ws|
  {
    forall i | pos <= i < pos + |ws|
      ensures IsWs(text[i])
    {
      assert text[i] == text[pos..pos + |ws|][i - pos] == ws[i - pos];
    }
  }

  /** And what was skipped is whitespace. */
  lemma SkippedWs(text: string, pos: nat) returns (ws: string)
    requires pos <= |text|
    ensures AllWs(ws) && At(text, pos, ws) && SkipWsFrom(text, pos) == pos + |ws|
  {
    ws := text[pos..SkipWsFrom(text, pos)];
  }

  // ---- strings ---------------------------------------------------------------------------

  /** The digits at a position are read as the number they write, and only digits are. */
  lemma HexReads(text: string, pos: nat)
    requires pos <= |text|
    ensures Hex4At(text, pos).Ok? <==> pos + 4 <= |text| && FourDigits(text[pos..pos + 4])
    ensures Hex4At(text, pos).Ok? ==> Hex4At(text, pos).value == HexValue(text[pos..pos + 4])
  {
    HexSteps(text, pos, 4, 0);
    if pos + 4 <= |text| && Digit(text[pos]).Some? {
      var d0 := Digit(text[pos]).value;
      HexSteps(text, pos + 1, 3, d0);
      if Digit(text[pos + 1]).Some? {
        var d1 := Digit(text[pos + 1]).value;
        HexSteps(text, pos + 2, 2, 0x10 * d0 + d1);
        if Digit(text[pos + 2]).Some? {
          HexSteps(text, pos + 3, 1, 0x10 * (0x10 * d0 + d1) + Digit(text[pos + 2]).value);
        }
      }
    }
  }

  lemma {:induction false} HexSteps(text: string, pos: nat, n: nat, value: nat)
    requires pos <= |text|
    ensures HexAt(text, pos, n, value).Ok? <==>
      pos + n <= |text| && forall i | pos <= i < pos + n :: Digit(text[i]).Some?
    ensures n > 0 && pos < |text| && Digit(text[pos]).Some? ==>
      HexAt(text, pos, n, value) == HexAt(text, pos + 1, n - 1, 0x10 * value + Digit(text[pos]).value)
    ensures n == 0 ==> HexAt(text, pos, n, value) == Ok(value, pos)
    decreases n
  {
    if n > 0 && pos < |text| && Digit(text[pos]).Some? {
      HexSteps(text, pos + 1, n - 1, 0x10 * value + Digit(text[pos]).value);
    }
  }

  /** An escape the reader takes is the text of a piece. */
  lemma EscapeSound(text: string, pos: nat) returns (p: Piece)
    requires pos < |text| && text[pos] == '\\' && EscapeAt(text, pos + 1).Ok?
    ensures ValidPiece(p) && !p.Plain? && At(text, pos, PieceText(p))
    ensures EscapeAt(text, pos + 1) == Ok(PieceChar(p), pos + |PieceText(p)|)
  {
    var letter := text[pos + 1];
    if ShortEscape(letter).Some? {
      p := Short(letter);
      assert text[pos..pos + 2] == PieceText(p);
    } else {
      HexReads(text, pos + 2);
      var high := text[pos + 2..pos + 6];
      assert text[pos..pos + 6] == "\\u" + high;
      if IsHigh(HexValue(high)) {
        HexReads(text, pos + 8);
        var low := text[pos + 8..pos + 12];
        p := Pair(high, low);
        assert text[pos + 6..pos + 12] == "\\u" + low;
        AtSplit(text, pos, "\\u" + high, "\\u" + low);
      } else {
        p := Unit(high);
      }
    }
  }

  /** And the text of every escape is taken for the character it means. */
  lemma EscapeComplete(text: string, pos: nat, p: Piece)
    requires ValidPiece(p) && !p.Plain? && At(text, pos, PieceText(p))
    ensures Sees(text, pos, '\\')
    ensures EscapeAt(text, pos + 1) == Ok(PieceChar(p), pos + |PieceText(p)|)
  {
    hide Hex4At, HexValue, Offset;
    AtFirst(text, pos, PieceText(p));
    match p
    case Short(letter) =>
      AtSplit(text, pos, ['\\'], [letter]);
      AtFirst(text, pos + 1, [letter]);
    case Unit(digits) =>
      UnitText(text, pos, digits);
    case Pair(high, low) =>
      SurrogatesComplete(text, pos, high, low);
  }

  lemma SurrogatesComplete(text: string, pos: nat, high: string, low: string)
    requires ValidPiece(Pair(high, low)) && At(text, pos, PieceText(Pair(high, low)))
    ensures EscapeAt(text, pos + 1) == Ok(CharOf(Combine(HexValue(high), HexValue(low))), pos + 12)
  {
    hide Hex4At, HexValue, Offset, At;
    AtSplit(text, pos, "\\u" + high, "\\u" + low);
    UnitText(text, pos, high);
    UnitText(text, pos + 6, low);
  }

  lemma UnitText(text: string, pos: nat, digits: string)
    requires FourDigits(digits) && At(text, pos, "\\u" + digits)
    ensures Sees(text, pos, '\\') && Sees(text, pos + 1, 'u')
    ensures Hex4At(text, pos + 2) == Ok(HexValue(digits), pos + 6)
  {
    AtSplit(text, pos, "\\u", digits);
    assert text[pos] == text[pos..pos + 2][0] && text[pos + 1] == text[pos..pos + 2][1];
    HexReads(text, pos + 2);
  }

  lemma SpelledCons(p: Piece, rest: seq<Piece>)
    requires ValidPiece(p) && ValidPieces(rest)
    ensures ValidPieces([p] + rest)
    ensures Spelled([p] + rest) == [PieceChar(p)] + Spelled(rest)
    ensures PiecesText([p] + rest) == PieceText(p) + PiecesText(rest)
  {
    assert ([p] + rest)[1..] == rest;
  }

  lemma {:induction false} TailSound(text: string, pos: nat, out: string) returns (pieces: seq<Piece>)
    requires pos <= |text| && TailAt(text, pos, out).Ok?
    ensures ValidPieces(pieces) && At(text, pos, PiecesText(pieces) + "\"")
    ensures TailAt(text, pos, out) == Ok(out + Spelled(pieces), pos + |PiecesText(pieces)| + 1)
    decreases |text| - pos
  {
    hide EscapeAt, PieceText, PieceChar;
    if text[pos] == '"' {
      pieces := [];
      assert text[pos..pos + 1] == PiecesText(pieces) + "\"";
      assert out + Spelled(pieces) == out;
    } else {
      var first;
      if text[pos] == '\\' {
        first := EscapeSound(text, pos);
      } else {
        first := PlainSound(text, pos);
      }
      var next := pos + |PieceText(first)|;
      var rest := TailSound(text, next, out + [PieceChar(first)]);
      pieces := [first] + rest;
      SpelledCons(first, rest);
      assert out + [PieceChar(first)] + Spelled(rest) == out + Spelled(pieces);
      AtSplit(text, pos, PieceText(first), PiecesText(rest) + "\"");
      assert PieceText(first) + (PiecesText(rest) + "\"") == PiecesText(pieces) + "\"";
    }
  }

  lemma PlainSound(text: string, pos: nat) returns (p: Piece)
    requires pos < |text| && text[pos] != '"' && text[pos] != '\\' && !IsControl(text[pos])
    ensures p == Plain(text[pos]) && ValidPiece(p) && At(text, pos, PieceText(p))
    ensures PieceChar(p) == text[pos] && |PieceText(p)| == 1
  {
    p := Plain(text[pos]);
    assert text[pos..pos + 1] == [text[pos]];
  }

  lemma {:induction false} TailComplete(text: string, pos: nat, out: string, pieces: seq<Piece>)
    requires pos <= |text| && ValidPieces(pieces) && At(text, pos, PiecesText(pieces) + "\"")
    ensures TailAt(text, pos, out) == Ok(out + Spelled(pieces), pos + |PiecesText(pieces)| + 1)
    decreases |pieces|
  {
    hide EscapeAt, PieceText, PieceChar;
    if pieces == [] {
      AtFirst(text, pos, PiecesText(pieces) + "\"");
      assert out + Spelled(pieces) == out;
    } else {
      var first, rest := pieces[0], pieces[1..];
      assert pieces == [first] + rest;
      SpelledCons(first, rest);
      assert PiecesText(pieces) + "\"" == PieceText(first) + (PiecesText(rest) + "\"");
      AtSplit(text, pos, PieceText(first), PiecesText(rest) + "\"");
      if first.Plain? {
        PlainComplete(text, pos, first);
      } else {
        EscapeComplete(text, pos, first);
      }
      TailComplete(text, pos + |PieceText(first)|, out + [PieceChar(first)], rest);
      assert out + [PieceChar(first)] + Spelled(rest) == out + Spelled(pieces);
    }
  }

  lemma PlainComplete(text: string, pos: nat, p: Piece)
    requires p.Plain? && ValidPiece(p) && At(text, pos, PieceText(p))
    ensures Sees(text, pos, p.c) && PieceChar(p) == p.c && |PieceText(p)| == 1
  {
    AtFirst(text, pos, PieceText(p));
  }

  /** A string literal is read as what it spells, and only literals are read. */
  lemma StringSound(text: string, pos: nat) returns (pieces: seq<Piece>)
    requires pos <= |text| && StringAt(text, pos).Ok?
    ensures ValidPieces(pieces) && At(text, pos, Literal(pieces))
    ensures StringAt(text, pos) == Ok(Spelled(pieces), pos + |Literal(pieces)|)
  {
    hide TailAt, PiecesText, Spelled, ValidPieces;
    pieces := TailSound(text, pos + 1, "");
    assert text[pos..pos + 1] == "\"";
    AtSplit(text, pos, "\"", PiecesText(pieces) + "\"");
    assert "" + Spelled(pieces) == Spelled(pieces);
  }

  lemma StringComplete(text: string, pos: nat, pieces: seq<Piece>)
    requires pos <= |text| && ValidPieces(pieces) && At(text, pos, Literal(pieces))
    ensures StringAt(text, pos) == Ok(Spelled(pieces), pos + |Literal(pieces)|)
    ensures Sees(text, pos, '"')
  {
    AtFirst(text, pos, Literal(pieces));
    AtSplit(text, pos, "\"", PiecesText(pieces) + "\"");
    TailComplete(text, pos + 1, "", pieces);
    assert "" + Spelled(pieces) == Spelled(pieces);
  }

  // ---- objects ---------------------------------------------------------------------------

  /** The fields of an object put into their slots, one after the other. */
  function PutAll(slots: Slots, pairs: seq<(string, string)>): Result<Slots, Error>
    decreases |pairs|
  {
    if pairs == [] then Success(slots)
    else
      match Put(slots, pairs[0].0, pairs[0].1)
      case Failure(error) => Failure(error)
      case Success(filled) => PutAll(filled, pairs[1..])
  }

  function SlotsOf(pairs: seq<(string, string)>): Slots {
    Slots(Lookup(pairs, "name"), Lookup(pairs, "dir"), Lookup(pairs, "listen"), Lookup(pairs, "socket"))
  }

  lemma PutOne(done: seq<(string, string)>, key: string, value: string)
    requires GoodKeys(done)
    ensures var r := Put(SlotsOf(done), key, value);
      if GoodKeys(done + [(key, value)]) then r == Success(SlotsOf(done + [(key, value)])) else r.Failure?
  {
    var pairs := done + [(key, value)];
    assert pairs[..|done|] == done;
    assert key in FIELDS <==>
           key == FIELDS[0] || key == FIELDS[1] || key == FIELDS[2] || key == FIELDS[3];
    if key in FIELDS && Lookup(done, key).None? {
      assert GoodKeys(pairs);
    } else {
      assert pairs[|done|].0 == key;
      assert !GoodKeys(pairs);
    }
  }

  lemma {:induction false} PutRest(done: seq<(string, string)>, pairs: seq<(string, string)>)
    requires GoodKeys(done)
    ensures var r := PutAll(SlotsOf(done), pairs);
      if GoodKeys(done + pairs) then r == Success(SlotsOf(done + pairs)) else r.Failure?
    decreases |pairs|
  {
    hide GoodKeys, SlotsOf, Put;
    if pairs == [] {
      assert done + pairs == done;
    } else {
      PutOne(done, pairs[0].0, pairs[0].1);
      assert done + [(pairs[0].0, pairs[0].1)] + pairs[1..] == done + pairs;
      if GoodKeys(done + [(pairs[0].0, pairs[0].1)]) {
        PutRest(done + [(pairs[0].0, pairs[0].1)], pairs[1..]);
      } else {
        BadPrefix(done + [(pairs[0].0, pairs[0].1)], pairs[1..]);
      }
    }
  }

  lemma BadPrefix(a: seq<(string, string)>, b: seq<(string, string)>)
    requires !GoodKeys(a)
    ensures !GoodKeys(a + b)
  {
    assert forall i | 0 <= i < |a| :: (a + b)[i] == a[i];
  }

  /** Filling the slots and finishing makes exactly the bridge the object means. */
  lemma ObjectMeaning(read: ReadAddress, pairs: seq<(string, string)>, bridge: Bridge)
    ensures ObjectMeans(read, pairs, bridge) <==>
      && PutAll(NO_SLOTS, pairs).Success?
      && Finish(read, PutAll(NO_SLOTS, pairs).value) == Success(bridge)
  {
    assert GoodKeys([]) && SlotsOf([]) == NO_SLOTS && [] + pairs == pairs;
    hide GoodKeys, Lookup, NewBridge, PutAll;
    PutRest([], pairs);
  }

  /** Whitespace in front of a pair, and so of an object's fields, is skipped twice. */
  lemma {:induction false} SkipBeforePair(text: string, pos: nat)
    requires pos <= |text|
    ensures PairAt(text, SkipWsFrom(text, pos)) == PairAt(text, pos)
  {
    hide StringAt, SkipWsFrom;
    SkipTwice(text, pos);
  }

  lemma {:induction false} SkipBeforeFields(text: string, pos: nat, slots: Slots)
    requires pos <= |text|
    ensures FieldsAt(text, SkipWsFrom(text, pos), slots) == FieldsAt(text, pos, slots)
  {
    hide PairAt, SkipWsFrom, Put;
    SkipBeforePair(text, pos);
  }

  lemma PairSound(text: string, pos: nat) returns (f: Field)
    requires pos <= |text| && PairAt(text, pos).Ok?
    ensures ValidField(f) && f.after == "" && At(text, pos, PairText(f))
    ensures PairAt(text, pos) == Ok((Spelled(f.key), Spelled(f.value)), pos + |PairText(f)|)
  {
    hide StringAt, Literal, At;
    var before := SkippedWs(text, pos);
    var p1 := pos + |before|;
    var key := StringSound(text, p1);
    var p2 := p1 + |Literal(key)|;
    var beforeColon := SkippedWs(text, p2);
    var p3 := p2 + |beforeColon|;
    assert At(text, p3, ":") by { SeesAt(text, p3, ':'); }
    var afterColon := SkippedWs(text, p3 + 1);
    var p4 := p3 + 1 + |afterColon|;
    var value := StringSound(text, p4);
    f := Field(before, key, beforeColon, afterColon, value, "");
    AtSplit(text, p3 + 1, afterColon, Literal(value));
    AtSplit(text, p3, ":", afterColon + Literal(value));
    AtSplit(text, p2, beforeColon, ":" + (afterColon + Literal(value)));
    AtSplit(text, p1, Literal(key), beforeColon + (":" + (afterColon + Literal(value))));
    AtSplit(text, pos, before, Literal(key) + (beforeColon + (":" + (afterColon + Literal(value)))));
  }

  lemma SeesAt(text: string, pos: nat, c: char)
    ensures Sees(text, pos, c) <==> At(text, pos, [c])
  {
    if pos < |text| {
      assert text[pos..pos + 1] == [text[pos]];
    }
  }

  lemma PairComplete(text: string, pos: nat, f: Field)
    requires pos <= |text| && ValidField(f) && At(text, pos, PairText(f))
    ensures PairAt(text, pos) == Ok((Spelled(f.key), Spelled(f.value)), pos + |PairText(f)|)
  {
    hide StringAt, Literal, At;
    var p1 := pos + |f.before|;
    var p2 := p1 + |Literal(f.key)|;
    var p3 := p2 + |f.beforeColon|;
    var p4 := p3 + 1 + |f.afterColon|;
    AtSplit(text, pos, f.before,
            Literal(f.key) + (f.beforeColon + (":" + (f.afterColon + Literal(f.value)))));
    AtSplit(text, p1, Literal(f.key), f.beforeColon + (":" + (f.afterColon + Literal(f.value))));
    AtSplit(text, p2, f.beforeColon, ":" + (f.afterColon + Literal(f.value)));
    AtSplit(text, p3, ":", f.afterColon + Literal(f.value));
    AtSplit(text, p3 + 1, f.afterColon, Literal(f.value));
    AtInside(text, p1, Literal(f.key));
    AtInside(text, p4, Literal(f.value));
    StringComplete(text, p1, f.key);
    StringComplete(text, p4, f.value);
    SeesAt(text, p3, ':');
    WsSkipped(text, pos, f.before);
    WsSkipped(text, p2, f.beforeColon);
    WsSkipped(text, p3 + 1, f.afterColon);
  }

  lemma AtInside(text: string, pos: nat, s: string)
    requires At(text, pos, s)
    ensures pos + |s| <= |text|
  {
  }

  lemma PairsCons(f: Field, rest: seq<Field>)
    requires ValidField(f) && ValidFields(rest)
    ensures ValidFields([f] + rest)
    ensures Pairs([f] + rest) == [(Spelled(f.key), Spelled(f.value))] + Pairs(rest)
    ensures [f] + rest != [] && ([f] + rest)[1..] == rest
  {
  }

  /** The fields up to the closing brace, read and put away. */
  lemma {:induction false} FieldsSound(text: string, pos: nat, slots: Slots) returns (fields: seq<Field>)
    requires pos <= |text| && FieldsAt(text, pos, slots).Ok?
    ensures ValidFields(fields) && fields != [] && At(text, pos, FieldsText(fields))
    ensures FieldsAt(text, pos, slots).at == pos + |FieldsText(fields)|
    ensures PutAll(slots, Pairs(fields)) == Success(FieldsAt(text, pos, slots).value)
    decreases |text| - pos
  {
    hide PairAt, At, Put, SkipWsFrom, PairText;
    var f := PairSound(text, pos);
    var at := pos + |PairText(f)|;
    var after := SkippedWs(text, at);
    var end := at + |after|;
    var field := f.(after := after);
    assert ValidField(field) && PairText(field) == PairText(f) by { AfterIsNoMatter(f, after); }
    var filled := Put(slots, Spelled(f.key), Spelled(f.value)).value;
    var tail;
    if Sees(text, end, ',') {
      var rest := FieldsSound(text, end + 1, filled);
      fields := [field] + rest;
      PairsCons(field, rest);
      tail := "," + FieldsText(rest);
      SeesAt(text, end, ',');
      AtSplit(text, end, ",", FieldsText(rest));
    } else {
      fields := [field];
      PairsCons(field, []);
      assert [field] + [] == fields;
      tail := "}";
      SeesAt(text, end, '}');
    }
    AtSplit(text, at, after, tail);
    AtSplit(text, pos, PairText(f), after + tail);
  }

  lemma AfterIsNoMatter(f: Field, after: string)
    requires ValidField(f) && AllWs(after)
    ensures ValidField(f.(after := after)) && PairText(f.(after := after)) == PairText(f)
  {
  }

  lemma {:induction false} FieldsComplete(text: string, pos: nat, slots: Slots, fields: seq<Field>)
    requires pos <= |text| && ValidFields(fields) && fields != [] && At(text, pos, FieldsText(fields))
    ensures FieldsAt(text, pos, slots) ==
      match PutAll(slots, Pairs(fields))
      case Failure(error) => Err(error)
      case Success(filled) => Ok(filled, pos + |FieldsText(fields)|)
    decreases |fields|
  {
    hide PairAt, At, Put, SkipWsFrom, PairText;
    var f, rest := fields[0], fields[1..];
    assert fields == [f] + rest;
    PairsCons(f, rest);
    var tail := if |fields| == 1 then "}" else "," + FieldsText(rest);
    var at, end := pos + |PairText(f)|, pos + |PairText(f)| + |f.after|;
    AtSplit(text, pos, PairText(f), f.after + tail);
    AtSplit(text, at, f.after, tail);
    PairComplete(text, pos, f);
    AtInside(text, pos, PairText(f));
    AtFirst(text, end, tail);
    WsSkipped(text, at, f.after);
    if |fields| > 1 {
      AtSplit(text, end, ",", FieldsText(rest));
      AtInside(text, end, ",");
      match Put(slots, Spelled(f.key), Spelled(f.value))
      case Failure(error) =>
      case Success(filled) => FieldsComplete(text, end + 1, filled, rest);
    }
  }

  // ---- the list --------------------------------------------------------------------------

  lemma ItemsMeanCons(read: ReadAddress, item: Item, bridge: Bridge, items: seq<Item>, bridges: seq<Bridge>)
    ensures ItemsMean(read, [item] + items, [bridge] + bridges) <==>
      ItemMeans(read, item, bridge) && ItemsMean(read, items, bridges)
    ensures ([item] + items)[1..] == items && ([bridge] + bridges)[1..] == bridges
    ensures ItemsMean(read, [item] + items, [bridge] + bridges) ==> ValidItems([item] + items)
  {
    hide ItemMeans, ValidItem;
    var all, both := [item] + items, [bridge] + bridges;
    if ItemsMean(read, all, both) {
      assert ItemMeans(read, all[0], both[0]);
      forall i | 0 <= i < |items|
        ensures ItemMeans(read, items[i], bridges[i])
      {
        assert ItemMeans(read, all[i + 1], both[i + 1]);
      }
      ItemsMeanValid(read, all, both);
    }
  }

  lemma ItemsMeanValid(read: ReadAddress, items: seq<Item>, bridges: seq<Bridge>)
    requires ItemsMean(read, items, bridges)
    ensures ValidItems(items)
  {
  }

  lemma ObjectSound(read: ReadAddress, text: string, pos: nat) returns (fields: seq<Field>)
    requires pos <= |text| && ObjectAt(read, text, pos).Ok?
    ensures fields != [] && ValidFields(fields) && At(text, pos, ObjectText(fields))
    ensures ObjectAt(read, text, pos).at == pos + |ObjectText(fields)|
    ensures ObjectMeans(read, Pairs(fields), ObjectAt(read, text, pos).value)
  {
    hide FieldsAt, At, SkipWsFrom, Finish, ObjectMeans, PutAll, FieldsText, Pairs, ValidFields;
    SkipBeforeFields(text, pos + 1, NO_SLOTS);
    fields := FieldsSound(text, pos + 1, NO_SLOTS);
    ObjectMeaning(read, Pairs(fields), ObjectAt(read, text, pos).value);
    SeesAt(text, pos, '{');
    AtSplit(text, pos, "{", FieldsText(fields));
  }

  lemma ObjectComplete(read: ReadAddress, text: string, pos: nat, fields: seq<Field>, bridge: Bridge)
    requires pos <= |text| && fields != [] && ValidFields(fields) && At(text, pos, ObjectText(fields))
    requires ObjectMeans(read, Pairs(fields), bridge)
    ensures ObjectAt(read, text, pos) == Ok(bridge, pos + |ObjectText(fields)|)
    ensures Sees(text, pos, '{')
  {
    hide FieldsAt, At, SkipWsFrom, Finish, ObjectMeans, PutAll, FieldsText, Pairs, ValidFields;
    AtSplit(text, pos, "{", FieldsText(fields));
    SeesAt(text, pos, '{');
    SkipBeforeFields(text, pos + 1, NO_SLOTS);
    FieldsComplete(text, pos + 1, NO_SLOTS, fields);
    ObjectMeaning(read, Pairs(fields), bridge);
    KeyIsFirst(text, pos + 1, fields);
  }

  /** An object with fields is not the empty one. */
  lemma KeyIsFirst(text: string, pos: nat, fields: seq<Field>)
    requires pos <= |text| && fields != [] && ValidFields(fields) && At(text, pos, FieldsText(fields))
    ensures Sees(text, SkipWsFrom(text, pos), '"')
  {
    hide At, SkipWsFrom;
    var f := fields[0];
    var tail := if |fields| == 1 then "}" else "," + FieldsText(fields[1..]);
    AtSplit(text, pos, PairText(f), f.after + tail);
    AtSplit(text, pos, f.before,
            Literal(f.key) + (f.beforeColon + (":" + (f.afterColon + Literal(f.value)))));
    AtFirst(text, pos + |f.before|,
            Literal(f.key) + (f.beforeColon + (":" + (f.afterColon + Literal(f.value)))));
    WsSkipped(text, pos, f.before);
  }

  lemma {:induction false} ItemsSound(read: ReadAddress, text: string, pos: nat, found: seq<Bridge>)
    returns (items: seq<Item>, bridges: seq<Bridge>)
    requires pos <= |text| && ItemsAt(read, text, pos, found).Ok?
    ensures items != [] && ValidItems(items) && At(text, pos, ItemsText(items))
    ensures ItemsAt(read, text, pos, found) == Ok(found + bridges, pos + |ItemsText(items)|)
    ensures ItemsMean(read, items, bridges)
    decreases |text| - pos
  {
    hide ItemsAt, ObjectAt, At, SkipWsFrom, ObjectMeans, Pairs, ObjectText, ItemsMean, ValidFields, AllWs;
    ItemsNext(read, text, pos, found);
    var before := SkippedWs(text, pos);
    var start := pos + |before|;
    var fields := ObjectSound(read, text, start);
    var bridge := ObjectAt(read, text, start).value;
    var at := start + |ObjectText(fields)|;
    var after := SkippedWs(text, at);
    var end := at + |after|;
    var item := Item(before, fields, after);
    assert ItemMeans(read, item, bridge);
    var tail;
    if Sees(text, end, ',') {
      var rest, others := ItemsSound(read, text, end + 1, found + [bridge]);
      items, bridges := [item] + rest, [bridge] + others;
      ItemsMeanCons(read, item, bridge, rest, others);
      assert found + [bridge] + others == found + bridges;
      tail := "," + ItemsText(rest);
      SeesAt(text, end, ',');
      AtSplit(text, end, ",", ItemsText(rest));
    } else {
      items, bridges := [item], [bridge];
      OneItemMeans(read, item, bridge);
      tail := "]";
      SeesAt(text, end, ']');
    }
    AtSplit(text, at, after, tail);
    AtSplit(text, start, ObjectText(fields), after + tail);
    AtSplit(text, pos, before, ObjectText(fields) + (after + tail));
  }

  lemma OneItemMeans(read: ReadAddress, item: Item, bridge: Bridge)
    requires ItemMeans(read, item, bridge)
    ensures ItemsMean(read, [item], [bridge]) && ValidItems([item])
  {
  }

  lemma {:induction false} ItemsComplete(read: ReadAddress, text: string, pos: nat, found: seq<Bridge>,
                                         items: seq<Item>, bridges: seq<Bridge>)
    requires pos <= |text| && items != [] && ValidItems(items) && At(text, pos, ItemsText(items))
    requires ItemsMean(read, items, bridges)
    ensures ItemsAt(read, text, pos, found) == Ok(found + bridges, pos + |ItemsText(items)|)
    decreases |items|
  {
    hide ItemsAt, ObjectAt, At, SkipWsFrom, ObjectMeans, Pairs, ObjectText, ItemsText, ItemsMean, ValidFields, AllWs;
    ItemsNext(read, text, pos, found);
    ItemsMeanLengths(read, items, bridges);
    var item, bridge, rest, others := items[0], bridges[0], items[1..], bridges[1..];
    assert items == [item] + rest && bridges == [bridge] + others;
    ItemsMeanCons(read, item, bridge, rest, others);
    var start := pos + |item.before|;
    var at := start + |ObjectText(item.fields)|;
    var end := at + |item.after|;
    FirstItem(text, pos, items);
    ObjectComplete(read, text, start, item.fields, bridge);
    WsSkipped(text, pos, item.before);
    WsSkipped(text, at, item.after);
    assert found + [bridge] + others == found + bridges;
    if |items| > 1 {
      ItemsComplete(read, text, end + 1, found + [bridge], rest, others);
    } else {
      assert others == [] && found + [bridge] == found + bridges;
    }
  }

  /** Where the parts of the first item stand. */
  lemma {:induction false} FirstItem(text: string, pos: nat, items: seq<Item>)
    requires pos <= |text| && items != [] && ValidItems(items) && At(text, pos, ItemsText(items))
    ensures At(text, pos, items[0].before)
    ensures |ItemsText(items)| == |items[0].before| + |ObjectText(items[0].fields)| + |items[0].after| + 1
                                  + if |items| == 1 then 0 else |ItemsText(items[1..])|
    ensures var start := pos + |items[0].before|;
      && start <= |text| && At(text, start, ObjectText(items[0].fields))
      && var at := start + |ObjectText(items[0].fields)|;
      && at <= |text| && At(text, at, items[0].after)
      && var end := at + |items[0].after|;
      && end < |text|
      && (if |items| == 1 then Sees(text, end, ']')
          else Sees(text, end, ',') && At(text, end + 1, ItemsText(items[1..])))
  {
    hide At, FieldsText, ValidField;
    var item, rest := items[0], items[1..];
    var tail := if |items| == 1 then "]" else "," + ItemsText(rest);
    var start := pos + |item.before|;
    var at := start + |ObjectText(item.fields)|;
    var end := at + |item.after|;
    AtSplit(text, pos, item.before, ObjectText(item.fields) + (item.after + tail));
    AtSplit(text, start, ObjectText(item.fields), item.after + tail);
    AtSplit(text, at, item.after, tail);
    AtInside(text, pos, item.before);
    AtInside(text, start, ObjectText(item.fields));
    AtInside(text, end, tail);
    AtFirst(text, end, tail);
    if |items| > 1 {
      AtSplit(text, end, ",", ItemsText(rest));
    }
  }

  lemma ItemsMeanLengths(read: ReadAddress, items: seq<Item>, bridges: seq<Bridge>)
    requires ItemsMean(read, items, bridges)
    ensures |items| == |bridges|
  {
  }

  // ---- the whole text --------------------------------------------------------------------

  ghost predicate Spells(read: ReadAddress, text: string, bridges: seq<Bridge>) {
    exists d :: Valid(d) && Means(read, d, bridges) && Render(d) == text
  }

  /** What the reader finds is written there. */
  lemma ParsedIsWritten(read: ReadAddress, text: string)
    requires Parsed(read, text).Success?
    ensures Spells(read, text, Parsed(read, text).value)
  {
    hide ItemsAt, At, SkipWsFrom, ItemMeans, ItemsText, AllWs, ValidItem;
    var before := SkippedWs(text, 0);
    var open := |before|;
    var first := SkipWsFrom(text, open + 1);
    var inner := SkippedWs(text, open + 1);
    var items, bridges, body := [], [], inner + "]";
    if Sees(text, first, ']') {
      SeesAt(text, first, ']');
      AtSplit(text, open + 1, inner, "]");
    } else {
      SkipBeforeItems(read, text, open + 1, []);
      items, bridges := ItemsSound(read, text, open + 1, []);
      body := ItemsText(items);
      assert [] + bridges == bridges;
    }
    var at := open + 1 + |body|;
    var after := SkippedWs(text, at);
    var d := Document(before, items, inner, after);
    SeesAt(text, open, '[');
    AtSplit(text, open + 1, body, after);
    AtSplit(text, open, "[", body + after);
    AtSplit(text, 0, before, "[" + (body + after));
    AtAll(text, Render(d));
    assert Valid(d) && Means(read, d, bridges);
  }

  lemma AtAll(text: string, s: string)
    requires At(text, 0, s) && |s| == |text|
    ensures s == text
  {
  }

  lemma SkipTwice(text: string, pos: nat)
    requires pos <= |text|
    ensures SkipWsFrom(text, SkipWsFrom(text, pos)) == SkipWsFrom(text, pos)
  {
  }

  lemma {:induction false} SkipBeforeItems(read: ReadAddress, text: string, pos: nat, found: seq<Bridge>)
    requires pos <= |text|
    ensures ItemsAt(read, text, SkipWsFrom(text, pos), found) == ItemsAt(read, text, pos, found)
  {
    hide ObjectAt, SkipWsFrom;
    SkipTwice(text, pos);
  }

  /** And the reader finds what is written, however it is written. */
  lemma WrittenIsParsed(read: ReadAddress, d: Document, bridges: seq<Bridge>)
    requires Valid(d) && Means(read, d, bridges)
    ensures Parsed(read, Render(d)) == Success(bridges)
  {
    hide ItemsAt, At, SkipWsFrom, ItemMeans, ItemsText, AllWs, ValidItem;
    var text := Render(d);
    var body := if d.items == [] then d.inner + "]" else ItemsText(d.items);
    var open, at := |d.before|, |d.before| + 1 + |body|;
    assert At(text, 0, text) by { AtWhole(text); }
    AtSplit(text, 0, d.before, "[" + (body + d.after));
    AtSplit(text, open, "[", body + d.after);
    AtSplit(text, open + 1, body, d.after);
    SeesAt(text, open, '[');
    WsSkipped(text, 0, d.before);
    WsSkipped(text, at, d.after);
    if d.items == [] {
      AtSplit(text, open + 1, d.inner, "]");
      SeesAt(text, open + 1 + |d.inner|, ']');
      WsSkipped(text, open + 1, d.inner);
    } else {
      ItemsComplete(read, text, open + 1, [], d.items, bridges);
      SkipBeforeItems(read, text, open + 1, []);
      NotEmptyList(text, open + 1, d.items);
      assert [] + bridges == bridges;
    }
  }

  lemma AtWhole(text: string)
    ensures At(text, 0, text)
  {
  }

  lemma NotEmptyList(text: string, pos: nat, items: seq<Item>)
    requires pos <= |text| && items != [] && ValidItems(items) && At(text, pos, ItemsText(items))
    ensures Sees(text, SkipWsFrom(text, pos), '{')
  {
    hide FieldsText, At;
    FirstItem(text, pos, items);
    AtFirst(text, pos + |items[0].before|, ObjectText(items[0].fields));
    WsSkipped(text, pos, items[0].before);
  }

  /** The reader is exact: it returns a list exactly when the text writes that list. */
  lemma ParsingIsExact(read: ReadAddress, text: string, bridges: seq<Bridge>)
    ensures Parsed(read, text) == Success(bridges) <==> Spells(read, text, bridges)
  {
    hide Parsed, Valid, Means, Render;
    if Parsed(read, text) == Success(bridges) {
      ParsedIsWritten(read, text);
    }
    if Spells(read, text, bridges) {
      var d :| Valid(d) && Means(read, d, bridges) && Render(d) == text;
      WrittenIsParsed(read, d, bridges);
    }
  }

  // ---- every list can be written -----------------------------------------------------------

  function HexDigit(n: nat): (c: char)
    requires n < 16
    ensures Digit(c) == Some(n)
  {
    if n < 10 then '0' + n as char else 'a' + (n - 10) as char
  }

  lemma HexParts(unit: nat)
    requires unit < 0x1_0000
    ensures unit / 0x1000 < 16
    ensures var a, b, c, d := unit / 0x1000, unit / 0x100 % 16, unit / 0x10 % 16, unit % 16;
      && unit == 0x1000 * a + 0x100 * b + 0x10 * c + d
      && var s := [HexDigit(a), HexDigit(b), HexDigit(c), HexDigit(d)];
      && FourDigits(s) && HexValue(s) == 0x1000 * a + 0x100 * b + 0x10 * c + d
  {
    hide HexDigit, Digit;
    assert unit / 0x100 == 0x10 * (unit / 0x1000) + unit / 0x100 % 16;
    assert unit / 0x10 == 0x10 * (unit / 0x100) + unit / 0x10 % 16;
  }

  function HexOf(unit: nat): (d: string)
    requires unit < 0x1_0000
    ensures FourDigits(d) && HexValue(d) == unit
  {
    HexParts(unit);
    [HexDigit(unit / 0x1000), HexDigit(unit / 0x100 % 16), HexDigit(unit / 0x10 % 16), HexDigit(unit % 16)]
  }

  /** The surrogate pair of a character beyond the basic plane. */
  function HighOf(code: nat): (unit: nat)
    requires 0x1_0000 <= code < 0x11_0000
    ensures IsHigh(unit)
  {
    0xD800 + (code - 0x1_0000) / 0x400
  }

  function LowOf(code: nat): (unit: nat)
    requires 0x1_0000 <= code < 0x11_0000
    ensures IsLow(unit)
  {
    0xDC00 + (code - 0x1_0000) % 0x400
  }

  /** Pairs and the characters beyond the basic plane correspond one to one, so no pair
      is refused and none means the same as another. */
  lemma PairsAreABijection(code: nat, high: nat, low: nat)
    requires 0x1_0000 <= code < 0x11_0000 && IsHigh(high) && IsLow(low)
    ensures 0x1_0000 <= Combine(high, low) < 0x11_0000
    ensures Combine(high, low) == code <==> high == HighOf(code) && low == LowOf(code)
  {
  }

  /** Each character can be escaped: in one unit, or beyond the basic plane in a pair. */
  lemma EscapeOf(c: char) returns (p: Piece)
    ensures ValidPiece(p) && !p.Plain? && PieceChar(p) == c
  {
    hide HexOf, HexValue, FourDigits, Combine, HighOf, LowOf;
    var code := c as nat;
    if code < 0x1_0000 {
      p := Unit(HexOf(code));
    } else {
      p := Pair(HexOf(HighOf(code)), HexOf(LowOf(code)));
      PairsAreABijection(code, HighOf(code), LowOf(code));
    }
  }

  /** Any choice of which characters to escape writes the string, as long as the quote,
      the backslash and every control character are among them. */
  lemma {:induction false} Spelling(s: string, escape: char -> bool) returns (pieces: seq<Piece>)
    requires forall c | c == '"' || c == '\\' || IsControl(c) :: escape(c)
    ensures ValidPieces(pieces) && Spelled(pieces) == s
    ensures forall i | 0 <= i < |pieces| :: pieces[i].Plain? <==> !escape(s[i])
  {
    pieces := [];
    if s != [] {
      var rest := Spelling(s[1..], escape);
      var first := Plain(s[0]);
      if escape(s[0]) {
        first := EscapeOf(s[0]);
      }
      pieces := [first] + rest;
      SpelledCons(first, rest);
    }
  }
}
