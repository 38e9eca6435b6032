/** What a text says about bridges, without the code that makes one: which values stand for
    which bridge, that exactly the right texts are read as it, and which mistake of a text
    is named. */
module BridgeMeaning {
  import opened Wrappers
  import opened BridgeList
  import opened BridgeJson
  import opened BridgeGrammar
  import opened Bits

  type KeyValues = seq<(string, string)>

  /** The word for a direction. */
  function Word(dir: Direction): string {
    match dir
    case In => "in"
    case Out => "out"
  }

  /** Exactly four pairs, in any order: the bridge's name, the word for its direction, a text
      that is read as its address, and its socket. */
  ghost predicate Describes(read: ReadAddress, pairs: KeyValues, b: Bridge) {
    && |pairs| == 4
    && ("name", b.name) in pairs && ("dir", Word(b.dir)) in pairs && ("socket", b.socket) in pairs
    && exists listen :: ("listen", listen) in pairs && read(listen) == Some(b.listen)
  }

  /** It has a name, and its socket is an absolute path. */
  predicate IsSound(b: Bridge) { b.name != "" && b.socket != "" && b.socket[0] == '/' }

  // ---- four pairs ------------------------------------------------------------------------------

  lemma LookupIs(pairs: KeyValues, key: string, value: string)
    requires GoodKeys(pairs)
    ensures Lookup(pairs, key) == Some(value) <==> (key, value) in pairs
  {
    if (key, value) in pairs {
      var i :| 0 <= i < |pairs| && pairs[i] == (key, value);
      assert Lookup(pairs, key).Some?;
      var found := Lookup(pairs, key).value;
      var j :| 0 <= j < |pairs| && pairs[j] == (key, found);
      assert i == j;
    }
  }

  /** The number of a field. */
  function FieldIndex(key: string): (k: nat)
    requires key in FIELDS
    ensures k < 4 && FIELDS[k] == key
  {
    if key == FIELDS[0] then 0 else if key == FIELDS[1] then 1 else if key == FIELDS[2] then 2 else 3
  }

  lemma FieldNames()
    ensures |FIELDS| == 4
    ensures FIELDS[0] == "name" && FIELDS[1] == "dir" && FIELDS[2] == "listen" && FIELDS[3] == "socket"
    ensures forall i, j | 0 <= i < j < 4 :: FIELDS[i] != FIELDS[j]
  {
    assert "name"[0] != "dir"[0] && "name"[0] != "listen"[0] && "name"[0] != "socket"[0];
    assert "dir"[0] != "listen"[0] && "dir"[0] != "socket"[0] && "listen"[0] != "socket"[0];
  }

  /** Good keys are at most four. */
  lemma AtMostFour(pairs: KeyValues)
    requires GoodKeys(pairs)
    ensures |pairs| <= 4
  {
    if |pairs| >= 5 {
      hide FIELDS;
      var a, b, c, d, e := FieldIndex(pairs[0].0), FieldIndex(pairs[1].0), FieldIndex(pairs[2].0),
                           FieldIndex(pairs[3].0), FieldIndex(pairs[4].0);
    }
  }

  /** Four places with four different keys among four pairs are all of them. */
  lemma FourPlaces(pairs: KeyValues, a: nat, b: nat, c: nat, d: nat)
    requires |pairs| == 4 && a < 4 && b < 4 && c < 4 && d < 4
    requires pairs[a].0 == FIELDS[0] && pairs[b].0 == FIELDS[1] && pairs[c].0 == FIELDS[2] && pairs[d].0 == FIELDS[3]
    ensures GoodKeys(pairs)
  {
    FieldNames();
    hide FIELDS;
    assert forall i | 0 <= i < 4 ::
        pairs[i] == pairs[a] || pairs[i] == pairs[b] || pairs[i] == pairs[c] || pairs[i] == pairs[d];
  }

  lemma KeyIsSomewhere(pairs: KeyValues, key: string) returns (i: nat)
    requires Lookup(pairs, key).Some?
    ensures i < |pairs| && pairs[i].0 == key
  {
    i :| 0 <= i < |pairs| && pairs[i].0 == key;
  }

  /** The four keys, each once and no other, are four pairs. */
  lemma FourKeys(pairs: KeyValues)
    requires GoodKeys(pairs)
    requires Lookup(pairs, FIELDS[0]).Some? && Lookup(pairs, FIELDS[1]).Some?
    requires Lookup(pairs, FIELDS[2]).Some? && Lookup(pairs, FIELDS[3]).Some?
    ensures |pairs| == 4
  {
    assert |FIELDS| == 4;
    hide FIELDS, GoodKeys, Lookup;
    AtMostFour(pairs);
    var a := KeyIsSomewhere(pairs, FIELDS[0]);
    var b := KeyIsSomewhere(pairs, FIELDS[1]);
    var c := KeyIsSomewhere(pairs, FIELDS[2]);
    var d := KeyIsSomewhere(pairs, FIELDS[3]);
    FourApart(pairs, a, b, c, d);
  }

  lemma FourApart(pairs: KeyValues, a: nat, b: nat, c: nat, d: nat)
    requires a < |pairs| && b < |pairs| && c < |pairs| && d < |pairs|
    requires pairs[a].0 == FIELDS[0] && pairs[b].0 == FIELDS[1] && pairs[c].0 == FIELDS[2] && pairs[d].0 == FIELDS[3]
    ensures |pairs| >= 4
  {
    FieldNames();
    hide FIELDS;
    assert a != b && a != c && a != d && b != c && b != d && c != d;
  }

  lemma SameBridge(read: ReadAddress, name: string, dir: string, listen: string, socket: string, b: Bridge)
    ensures NewBridge(read, name, dir, listen, socket) == Success(b) <==>
      IsSound(b) && name == b.name && dir == Word(b.dir) && read(listen) == Some(b.listen) && socket == b.socket
  {
    assert "in"[0] != "out"[0];
  }

  /** An object makes a bridge exactly if its pairs describe it and it is sound. */
  lemma ObjectDescribes(read: ReadAddress, pairs: KeyValues, b: Bridge)
    ensures ObjectMeans(read, pairs, b) <==> Describes(read, pairs, b) && IsSound(b)
  {
    FieldNames();
    hide FIELDS, GoodKeys, NewBridge, Word, Lookup;
    if ObjectMeans(read, pairs, b) {
      FourKeys(pairs);
      ValuesOf(pairs);
      var name, dir := Lookup(pairs, FIELDS[0]).value, Lookup(pairs, FIELDS[1]).value;
      var listen, socket := Lookup(pairs, FIELDS[2]).value, Lookup(pairs, FIELDS[3]).value;
      SameBridge(read, name, dir, listen, socket, b);
    }
    if Describes(read, pairs, b) && IsSound(b) {
      var listen :| ("listen", listen) in pairs && read(listen) == Some(b.listen);
      AllPresent(pairs, b.name, Word(b.dir), listen, b.socket);
      LookupIs(pairs, "name", b.name);
      LookupIs(pairs, "dir", Word(b.dir));
      LookupIs(pairs, "listen", listen);
      LookupIs(pairs, "socket", b.socket);
      SameBridge(read, b.name, Word(b.dir), listen, b.socket, b);
    }
  }

  lemma ValuesOf(pairs: KeyValues)
    ensures forall k | 0 <= k < 4 && Lookup(pairs, FIELDS[k]).Some? ::
      (FIELDS[k], Lookup(pairs, FIELDS[k]).value) in pairs
  {
  }

  lemma AllPresent(pairs: KeyValues, name: string, dir: string, listen: string, socket: string)
    requires |pairs| == 4 && ("name", name) in pairs && ("dir", dir) in pairs && ("listen", listen) in pairs
    requires ("socket", socket) in pairs
    ensures GoodKeys(pairs)
  {
    FieldNames();
    var a :| 0 <= a < 4 && pairs[a] == ("name", name);
    var b :| 0 <= b < 4 && pairs[b] == ("dir", dir);
    var c :| 0 <= c < 4 && pairs[c] == ("listen", listen);
    var d :| 0 <= d < 4 && pairs[d] == ("socket", socket);
    hide FIELDS, GoodKeys;
    FourPlaces(pairs, a, b, c, d);
  }

  // ---- whole texts -----------------------------------------------------------------------------------

  ghost predicate ItemDescribes(read: ReadAddress, item: Item, b: Bridge) {
    ValidItem(item) && Describes(read, Pairs(item.fields), b) && IsSound(b)
  }

  /** The document says one bridge after the other. */
  ghost predicate Says(read: ReadAddress, d: Document, bridges: seq<Bridge>) {
    && Valid(d) && |d.items| == |bridges|
    && forall i | 0 <= i < |bridges| :: ItemDescribes(read, d.items[i], bridges[i])
  }

  lemma SaysWhatItMeans(read: ReadAddress, d: Document, bridges: seq<Bridge>)
    requires Valid(d)
    ensures Means(read, d, bridges) <==> Says(read, d, bridges)
  {
    hide ObjectMeans, Describes, IsSound, ValidItem;
    forall i | 0 <= i < |d.items| && |d.items| == |bridges|
      ensures ItemMeans(read, d.items[i], bridges[i]) <==> ItemDescribes(read, d.items[i], bridges[i])
    {
      if ValidItem(d.items[i]) {
        assert ValidFields(d.items[i].fields) by { ItemFields(d.items[i]); }
        ObjectDescribes(read, Pairs(d.items[i].fields), bridges[i]);
      }
    }
  }

  lemma ItemFields(item: Item)
    requires ValidItem(item)
    ensures ValidFields(item.fields) && item.fields != []
  {
  }

  /** A text is read as a list of bridges if and only if it is the text of a document that
      says them: an inward bridge by the word "in", an outward one by "out". */
  lemma BridgesAreReadAsSaid(read: ReadAddress, text: string, bridges: seq<Bridge>)
    ensures Parsed(read, text) == Success(bridges) <==>
      exists d :: Says(read, d, bridges) && Render(d) == text
  {
    hide Parsed, Valid, Means, Render, ItemDescribes;
    ParsingIsExact(read, text, bridges);
    if Spells(read, text, bridges) {
      var d :| Valid(d) && Means(read, d, bridges) && Render(d) == text;
      SaysWhatItMeans(read, d, bridges);
    }
    if exists d :: Says(read, d, bridges) && Render(d) == text {
      var d :| Says(read, d, bridges) && Render(d) == text;
      SaysWhatItMeans(read, d, bridges);
    }
  }

  // ---- every list can be said --------------------------------------------------------------------

  /** A string with every character escaped. */
  lemma Escaped(s: string) returns (pieces: seq<Piece>)
    ensures ValidPieces(pieces) && Spelled(pieces) == s
  {
    pieces := Spelling(s, c => true);
  }

  lemma FieldOf(key: string, value: string) returns (f: Field)
    ensures ValidField(f) && Spelled(f.key) == key && Spelled(f.value) == value
  {
    var k := Escaped(key);
    var v := Escaped(value);
    f := Field("", k, "", "", v, "");
  }

  lemma ItemOf(read: ReadAddress, b: Bridge, listen: string) returns (item: Item)
    requires IsSound(b) && read(listen) == Some(b.listen)
    ensures ItemDescribes(read, item, b)
  {
    hide ValidField, Spelled, Word;
    var name := FieldOf("name", b.name);
    var dir := FieldOf("dir", Word(b.dir));
    var address := FieldOf("listen", listen);
    var socket := FieldOf("socket", b.socket);
    item := Item("", [name, dir, address, socket], "");
    assert ValidFields(item.fields);
    var pairs := Pairs(item.fields);
    assert pairs[0] == ("name", b.name) && pairs[1] == ("dir", Word(b.dir));
    assert pairs[2] == ("listen", listen) && pairs[3] == ("socket", b.socket);
  }

  ghost predicate HasText(read: ReadAddress, address: Address) { exists listen :: read(listen) == Some(address) }

  /** Sound bridges whose addresses have a text are the bridges some text says. */
  lemma {:induction false} CanBeSaid(read: ReadAddress, bridges: seq<Bridge>) returns (d: Document)
    requires forall i | 0 <= i < |bridges| :: IsSound(bridges[i]) && HasText(read, bridges[i].listen)
    ensures Says(read, d, bridges)
  {
    d := Document("", [], "", "");
    if bridges != [] {
      var n := |bridges| - 1;
      var before := CanBeSaid(read, bridges[..n]);
      assert HasText(read, bridges[n].listen);
      var listen :| read(listen) == Some(bridges[n].listen);
      var item := ItemOf(read, bridges[n], listen);
      hide ItemDescribes;
      d := before.(items := before.items + [item]);
      assert ValidItem(item) by { DescribedIsValid(read, item, bridges[n]); }
    }
  }

  lemma DescribedIsValid(read: ReadAddress, item: Item, b: Bridge)
    requires ItemDescribes(read, item, b)
    ensures ValidItem(item)
  {
  }

  // ---- characters --------------------------------------------------------------------------------

  /** Whitespace as in section 2 of RFC 8259, the short escapes of its section 7, and the
      hexadecimal digits in either case. */
  lemma CharactersOfJson(c: char, d: char, n: nat)
    ensures IsWs(c) <==> c as int in {0x20, 0x09, 0x0A, 0x0D}
    ensures ShortEscape(c) == Some(d) <==>
      (c, d as int) in {('"', 0x22), ('\\', 0x5C), ('/', 0x2F), ('b', 0x08), ('f', 0x0C), ('n', 0x0A), ('r', 0x0D),
                        ('t', 0x09)}
    ensures Digit(c) == Some(n) <==> n < 16 && (c == "0123456789abcdef"[n] || c == "0123456789ABCDEF"[n])
    ensures IsControl(c) <==> c as int / 0x20 == 0 || c as int / 0x20 == 4 || c as int == 0x7F
  {
  }

  /** Four digits in the order of their weight. */
  lemma UnitOfDigits(digits: string)
    requires FourDigits(digits)
    ensures Digit(digits[0]) == Some(HexValue(digits) / 0x1000)
    ensures Digit(digits[1]) == Some(HexValue(digits) / 0x100 % 0x10)
    ensures Digit(digits[2]) == Some(HexValue(digits) / 0x10 % 0x10)
    ensures Digit(digits[3]) == Some(HexValue(digits) % 0x10)
  {
    assert DigitsOf(digits[0], digits[1], digits[2], digits[3]) by { DigitsAreSmall(digits, 0); }
    hide Digit;
    var a, b, c, d := Digit(digits[0]).value, Digit(digits[1]).value, Digit(digits[2]).value, Digit(digits[3]).value;
    FourPlacesOf(a, b, c, d);
  }

  predicate DigitsOf(a: char, b: char, c: char, d: char)
    requires Digit(a).Some? && Digit(b).Some? && Digit(c).Some? && Digit(d).Some?
  {
    Digit(a).value < 16 && Digit(b).value < 16 && Digit(c).value < 16 && Digit(d).value < 16
  }

  lemma FourPlacesOf(a: nat, b: nat, c: nat, d: nat)
    requires a < 16 && b < 16 && c < 16 && d < 16
    ensures var n := 0x1000 * a + 0x100 * b + 0x10 * c + d;
      n / 0x1000 == a && n / 0x100 % 0x10 == b && n / 0x10 % 0x10 == c && n % 0x10 == d
  {
    var n := 0x1000 * a + 0x100 * b + 0x10 * c + d;
    QuotientIs(n, 0x1000, a, 0x100 * b + 0x10 * c + d);
    QuotientIs(n, 0x100, 0x10 * a + b, 0x10 * c + d);
    QuotientIs(n, 0x10, 0x100 * a + 0x10 * b + c, d);
    RemainderIs(0x10 * a + b, 0x10, a, b);
    RemainderIs(0x100 * a + 0x10 * b + c, 0x10, 0x10 * a + b, c);
    RemainderIs(n, 0x10, 0x100 * a + 0x10 * b + c, d);
  }

  /** A pair holds twenty bits, the high ten first (section 2.1 of RFC 2781). */
  lemma BitsOfPairs(high: nat, low: nat)
    requires IsHigh(high) && IsLow(low)
    ensures high / 0x400 == 0x36 && low / 0x400 == 0x37
    ensures (Combine(high, low) - 0x1_0000) / 0x400 == high % 0x400
    ensures (Combine(high, low) - 0x1_0000) % 0x400 == low % 0x400
  {
  }

  /** The bytes of a character are the fewest whose free bits hold it: seven in one byte,
      eleven, sixteen or twenty-one in more (section 3 of RFC 3629). */
  lemma BytesHoldTheCharacter(c: char, n: nat)
    requires 1 <= n <= 4
    ensures Utf8Length(c) <= n <==> c as int < Pow2(if n == 1 then 7 else 5 * n + 1)
  {
    Words();
    assert Pow2(7) == 0x80 && Pow2(3) == 2 * Pow2(2) == 4 * Pow2(1) == 8 && Pow2(5) == 4 * Pow2(3);
    PowSum(8, 3);
    PowSum(8, 8);
    PowSum(16, 5);
    hide Pow2;
  }
}
