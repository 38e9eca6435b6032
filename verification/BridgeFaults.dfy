/** Which mistake of a list of bridges is named, said of the text's keys and values and not
    of the reader: the first object that makes no bridge, and in it the first wrong key,
    else the first missing one, else the first wrong value. */
module BridgeFaults {
  import opened Wrappers
  import opened BridgeList
  import opened BridgeJson
  import opened BridgeGrammar
  import opened BridgeMeaning

  predicate IsKey(key: string) { key == "name" || key == "dir" || key == "listen" || key == "socket" }

  ghost predicate HasKey(pairs: KeyValues, key: string) { exists i | 0 <= i < |pairs| :: pairs[i].0 == key }

  /** The first `n` keys are good: known ones, and none of them twice. */
  ghost predicate GoodBefore(pairs: KeyValues, n: nat)
    requires n <= |pairs|
  {
    && (forall i | 0 <= i < n :: IsKey(pairs[i].0))
    && (forall i, j | 0 <= i < j < n :: pairs[i].0 != pairs[j].0)
  }

  /** The key at `n` is the first wrong one. */
  ghost predicate WrongKey(pairs: KeyValues, n: nat, error: Error)
    requires n < |pairs|
  {
    && GoodBefore(pairs, n)
    && (if IsKey(pairs[n].0) then HasKey(pairs[..n], pairs[n].0) && error == DuplicateField(pairs[n].0)
        else error == UnknownField(pairs[n].0))
  }

  /** The four keys in the order in which a missing one is named. */
  ghost predicate Missing(pairs: KeyValues, error: Error) {
    if !HasKey(pairs, "name") then error == MissingField("name")
    else if !HasKey(pairs, "dir") then error == MissingField("dir")
    else if !HasKey(pairs, "listen") then error == MissingField("listen")
    else !HasKey(pairs, "socket") && error == MissingField("socket")
  }

  /** Four values of which one is wrong: the name, the direction, the address, the socket. */
  ghost predicate WrongValue(read: ReadAddress, pairs: KeyValues, error: Error) {
    exists name, dir, listen, socket ::
      && ("name", name) in pairs && ("dir", dir) in pairs
      && ("listen", listen) in pairs && ("socket", socket) in pairs
      && Wrong(read, name, dir, listen, socket, error)
  }

  predicate Wrong(read: ReadAddress, name: string, dir: string, listen: string, socket: string, error: Error) {
    if name == "" then error == EmptyName
    else if dir != "in" && dir != "out" then error == BadDirection(dir)
    else if read(listen).None? then error == BadListen(listen)
    else (socket == "" || socket[0] != '/') && error == SocketNotAbsolute(socket)
  }

  ghost predicate Faulty(read: ReadAddress, pairs: KeyValues, error: Error) {
    || (exists n :: 0 <= n < |pairs| && WrongKey(pairs, n, error))
    || (GoodBefore(pairs, |pairs|) && (Missing(pairs, error) || WrongValue(read, pairs, error)))
  }

  // ---- one object ------------------------------------------------------------------------------

  lemma SameKeys(pairs: KeyValues, n: nat)
    requires n <= |pairs|
    ensures GoodKeys(pairs[..n]) <==> GoodBefore(pairs, n)
  {
    forall i | 0 <= i < n
      ensures pairs[..n][i].0 in FIELDS <==> IsKey(pairs[i].0)
    {
      KeyIsField(pairs[i].0);
    }
    hide FIELDS, IsKey;
    assert forall i | 0 <= i < n :: pairs[..n][i] == pairs[i];
  }

  lemma KeyIsField(key: string)
    ensures key in FIELDS <==> IsKey(key)
  {
    assert key in FIELDS <==> key == FIELDS[0] || key == FIELDS[1] || key == FIELDS[2] || key == FIELDS[3];
  }

  /** A wrong key is refused by its name, behind any good ones. */
  lemma PutWrong(done: KeyValues, key: string, value: string)
    requires GoodKeys(done)
    ensures !IsKey(key) ==> Put(SlotsOf(done), key, value) == Failure(UnknownField(key))
    ensures IsKey(key) && HasKey(done, key) ==> Put(SlotsOf(done), key, value) == Failure(DuplicateField(key))
  {
  }

  /** The first wrong key ends the reading of an object. */
  lemma {:induction false} PutAllWrong(done: KeyValues, pairs: KeyValues, n: nat, error: Error)
    requires |done| <= n < |done + pairs| && WrongKey(done + pairs, n, error)
    ensures PutAll(SlotsOf(done), pairs) == Failure(error)
    decreases |pairs|
  {
    hide GoodKeys, SlotsOf, Put, IsKey, HasKey;
    var all := done + pairs;
    assert all[..|done|] == done && all[|done|] == pairs[0];
    GoodPrefix(all, n, |done|);
    SameKeys(all, |done|);
    var next := done + [(pairs[0].0, pairs[0].1)];
    if n == |done| {
      PutWrong(done, pairs[0].0, pairs[0].1);
    } else {
      assert all[..|done| + 1] == next;
      GoodPrefix(all, n, |done| + 1);
      SameKeys(all, |done| + 1);
      PutOne(done, pairs[0].0, pairs[0].1);
      assert next + pairs[1..] == all;
      PutAllWrong(next, pairs[1..], n, error);
    }
  }

  lemma GoodPrefix(pairs: KeyValues, n: nat, m: nat)
    requires m <= n <= |pairs| && GoodBefore(pairs, n)
    ensures GoodBefore(pairs, m)
  {
  }

  lemma LookupHas(pairs: KeyValues, key: string)
    ensures Lookup(pairs, key).Some? <==> HasKey(pairs, key)
  {
  }

  /** Good keys leave the slots to name the missing field or the wrong value. */
  lemma FinishWrong(read: ReadAddress, pairs: KeyValues, error: Error)
    requires GoodKeys(pairs) && (Missing(pairs, error) || WrongValue(read, pairs, error))
    ensures Finish(read, SlotsOf(pairs)) == Failure(error)
  {
    hide GoodKeys, Lookup, HasKey;
    LookupHas(pairs, "name");
    LookupHas(pairs, "dir");
    LookupHas(pairs, "listen");
    LookupHas(pairs, "socket");
    if WrongValue(read, pairs, error) {
      var name, dir, listen, socket :| ("name", name) in pairs && ("dir", dir) in pairs
        && ("listen", listen) in pairs && ("socket", socket) in pairs
        && Wrong(read, name, dir, listen, socket, error);
      LookupIs(pairs, "name", name);
      LookupIs(pairs, "dir", dir);
      LookupIs(pairs, "listen", listen);
      LookupIs(pairs, "socket", socket);
    }
  }

  /** A faulty object is refused by its fault. */
  lemma FaultIsNamed(read: ReadAddress, pairs: KeyValues, error: Error)
    requires Faulty(read, pairs, error)
    ensures PutAll(NO_SLOTS, pairs) == Failure(error) ||
      (PutAll(NO_SLOTS, pairs).Success? && Finish(read, PutAll(NO_SLOTS, pairs).value) == Failure(error))
  {
    assert GoodKeys([]) && SlotsOf([]) == NO_SLOTS && [] + pairs == pairs && pairs[..|pairs|] == pairs;
    hide GoodKeys, SlotsOf, PutAll, Finish, Missing, WrongValue, WrongKey, GoodBefore;
    if n :| 0 <= n < |pairs| && WrongKey(pairs, n, error) {
      PutAllWrong([], pairs, n, error);
    } else {
      SameKeys(pairs, |pairs|);
      PutRest([], pairs);
      FinishWrong(read, pairs, error);
    }
  }

  lemma {:induction false} FirstWrongKey(pairs: KeyValues, m: nat) returns (n: nat, error: Error)
    requires m <= |pairs| && !GoodBefore(pairs, m)
    ensures n < m && WrongKey(pairs, n, error)
  {
    if GoodBefore(pairs, m - 1) {
      var key := pairs[m - 1].0;
      n, error := m - 1, if IsKey(key) then DuplicateField(key) else UnknownField(key);
      hide IsKey;
      if IsKey(key) {
        var i :| 0 <= i < m - 1 && pairs[i].0 == key;
        assert pairs[..m - 1][i].0 == key;
      }
    } else {
      n, error := FirstWrongKey(pairs, m - 1);
    }
  }

  lemma ValueOf(pairs: KeyValues, key: string) returns (value: string)
    requires HasKey(pairs, key)
    ensures (key, value) in pairs
  {
    var i :| 0 <= i < |pairs| && pairs[i].0 == key;
    value := pairs[i].1;
    assert pairs[i] == (key, value);
  }

  /** Each object makes a bridge or has a fault. */
  lemma BridgeOrFault(read: ReadAddress, pairs: KeyValues) returns (b: Option<Bridge>, error: Error)
    ensures if b.Some? then Describes(read, pairs, b.value) && IsSound(b.value) else Faulty(read, pairs, error)
  {
    hide HasKey, GoodBefore, WrongKey;
    b, error := None, EmptyName;
    if !GoodBefore(pairs, |pairs|) {
      var n;
      n, error := FirstWrongKey(pairs, |pairs|);
    } else if !HasKey(pairs, "name") {
      error := MissingField("name");
    } else if !HasKey(pairs, "dir") {
      error := MissingField("dir");
    } else if !HasKey(pairs, "listen") {
      error := MissingField("listen");
    } else if !HasKey(pairs, "socket") {
      error := MissingField("socket");
    } else {
      b, error := AllKeys(read, pairs);
    }
  }

  lemma AllKeys(read: ReadAddress, pairs: KeyValues) returns (b: Option<Bridge>, error: Error)
    requires GoodBefore(pairs, |pairs|)
    requires HasKey(pairs, "name") && HasKey(pairs, "dir") && HasKey(pairs, "listen") && HasKey(pairs, "socket")
    ensures if b.Some? then Describes(read, pairs, b.value) && IsSound(b.value) else Faulty(read, pairs, error)
  {
    hide HasKey, GoodBefore, WrongKey, Missing;
    var name := ValueOf(pairs, "name");
    var dir := ValueOf(pairs, "dir");
    var listen := ValueOf(pairs, "listen");
    var socket := ValueOf(pairs, "socket");
    b, error := None, EmptyName;
    if name == "" {
      assert Wrong(read, name, dir, listen, socket, error);
    } else if dir != "in" && dir != "out" {
      error := BadDirection(dir);
      assert Wrong(read, name, dir, listen, socket, error);
    } else if read(listen).None? {
      error := BadListen(listen);
      assert Wrong(read, name, dir, listen, socket, error);
    } else if socket == "" || socket[0] != '/' {
      error := SocketNotAbsolute(socket);
      assert Wrong(read, name, dir, listen, socket, error);
    } else {
      b := Some(Bridge(name, if dir == "in" then In else Out, read(listen).value, socket));
      FourPairs(pairs);
    }
  }

  lemma FourPairs(pairs: KeyValues)
    requires GoodBefore(pairs, |pairs|)
    requires HasKey(pairs, "name") && HasKey(pairs, "dir") && HasKey(pairs, "listen") && HasKey(pairs, "socket")
    ensures |pairs| == 4
  {
    hide GoodKeys, GoodBefore, HasKey, Lookup;
    assert pairs[..|pairs|] == pairs;
    SameKeys(pairs, |pairs|);
    LookupHas(pairs, "name");
    LookupHas(pairs, "dir");
    LookupHas(pairs, "listen");
    LookupHas(pairs, "socket");
    FourKeys(pairs);
  }

  // ---- the text --------------------------------------------------------------------------------

  lemma ObjectFails(read: ReadAddress, text: string, pos: nat, fields: seq<Field>, error: Error)
    requires pos <= |text| && fields != [] && ValidFields(fields) && At(text, pos, ObjectText(fields))
    requires Faulty(read, Pairs(fields), error)
    ensures ObjectAt(read, text, pos) == Err(error)
  {
    hide FieldsAt, At, SkipWsFrom, Finish, Faulty, PutAll, FieldsText, Pairs, ValidFields;
    AtSplit(text, pos, "{", FieldsText(fields));
    SeesAt(text, pos, '{');
    SkipBeforeFields(text, pos + 1, NO_SLOTS);
    FieldsComplete(text, pos + 1, NO_SLOTS, fields);
    FaultIsNamed(read, Pairs(fields), error);
    KeyIsFirst(text, pos + 1, fields);
  }

  /** The items before the fault make bridges. */
  ghost predicate FaultBehind(read: ReadAddress, items: seq<Item>, bridges: seq<Bridge>, error: Error) {
    && ValidItems(items) && |bridges| < |items|
    && (forall i | 0 <= i < |bridges| :: ItemMeans(read, items[i], bridges[i]))
    && ItemIsFaulty(read, items[|bridges|], error)
  }

  ghost predicate ItemIsFaulty(read: ReadAddress, item: Item, error: Error) {
    ValidItem(item) && Faulty(read, Pairs(item.fields), error)
  }

  lemma FaultBehindRest(read: ReadAddress, items: seq<Item>, bridges: seq<Bridge>, error: Error)
    requires FaultBehind(read, items, bridges, error) && bridges != []
    ensures FaultBehind(read, items[1..], bridges[1..], error) && ItemMeans(read, items[0], bridges[0])
  {
    hide ItemMeans, ItemIsFaulty, ValidItem;
    forall i | 0 <= i < |bridges| - 1
      ensures ItemMeans(read, items[1..][i], bridges[1..][i])
    {
      assert ItemMeans(read, items[i + 1], bridges[i + 1]);
    }
  }

  lemma {:induction false} ItemsFail(read: ReadAddress, text: string, pos: nat, found: seq<Bridge>,
                                     items: seq<Item>, bridges: seq<Bridge>, error: Error)
    requires pos <= |text| && items != [] && ValidItems(items) && At(text, pos, ItemsText(items))
    requires FaultBehind(read, items, bridges, error)
    ensures ItemsAt(read, text, pos, found) == Err(error)
    decreases |items|
  {
    hide ItemsAt, ObjectAt, At, SkipWsFrom, ObjectMeans, Pairs, ObjectText, ItemsText, ValidFields, AllWs, Faulty;
    ItemsNext(read, text, pos, found);
    FirstItem(text, pos, items);
    var item := items[0];
    var start := pos + |item.before|;
    NoWsAtObject(text, start, item.fields);
    WsSkipped(text, pos, item.before);
    if bridges == [] {
      ObjectFails(read, text, start, item.fields, error);
    } else {
      FaultBehindRest(read, items, bridges, error);
      ObjectComplete(read, text, start, item.fields, bridges[0]);
      WsSkipped(text, start + |ObjectText(item.fields)|, item.after);
      ItemsFail(read, text, start + |ObjectText(item.fields)| + |item.after| + 1, found + [bridges[0]],
                items[1..], bridges[1..], error);
    }
  }

  lemma NoWsAtObject(text: string, pos: nat, fields: seq<Field>)
    requires fields != [] && At(text, pos, ObjectText(fields))
    ensures Sees(text, pos, '{')
  {
    AtFirst(text, pos, ObjectText(fields));
  }

  /** The reader names the fault of the first object that makes no bridge, in a text with any
      whitespace, key order and escapes. */
  lemma FirstFaultIsNamed(read: ReadAddress, d: Document, bridges: seq<Bridge>, error: Error)
    requires Valid(d) && |bridges| < |d.items|
    requires forall i | 0 <= i < |bridges| :: ItemDescribes(read, d.items[i], bridges[i])
    requires ItemIsFaulty(read, d.items[|bridges|], error)
    ensures Parsed(read, Render(d)) == Failure(error)
  {
    hide ItemsAt, At, SkipWsFrom, ItemMeans, ItemDescribes, ItemIsFaulty, ItemsText, AllWs, ValidItem;
    forall i | 0 <= i < |bridges|
      ensures ItemMeans(read, d.items[i], bridges[i])
    {
      DescribedMeans(read, d.items[i], bridges[i]);
    }
    var text := Render(d);
    var body := ItemsText(d.items);
    var open := |d.before|;
    assert At(text, 0, text) by { AtWhole(text); }
    AtSplit(text, 0, d.before, "[" + (body + d.after));
    AtSplit(text, open, "[", body + d.after);
    AtSplit(text, open + 1, body, d.after);
    SeesAt(text, open, '[');
    WsSkipped(text, 0, d.before);
    SkipBeforeItems(read, text, open + 1, []);
    NotEmptyList(text, open + 1, d.items);
    ItemsFail(read, text, open + 1, [], d.items, bridges, error);
  }

  lemma DescribedMeans(read: ReadAddress, item: Item, b: Bridge)
    requires ItemDescribes(read, item, b)
    ensures ItemMeans(read, item, b)
  {
    hide Describes, IsSound, ObjectMeans;
    ItemFields(item);
    ObjectDescribes(read, Pairs(item.fields), b);
  }

  lemma {:induction false} BridgesBefore(read: ReadAddress, items: seq<Item>, n: nat)
    returns (bridges: seq<Bridge>, error: Error)
    requires ValidItems(items) && n <= |items|
    ensures |bridges| <= n && forall i | 0 <= i < |bridges| :: ItemDescribes(read, items[i], bridges[i])
    ensures |bridges| < n ==> ItemIsFaulty(read, items[|bridges|], error)
  {
    bridges, error := [], EmptyName;
    if n > 0 {
      bridges, error := BridgesBefore(read, items, n - 1);
      if |bridges| == n - 1 {
        hide Describes, IsSound, Faulty;
        var b;
        assert ValidItem(items[n - 1]);
        b, error := BridgeOrFault(read, Pairs(items[n - 1].fields));
        if b.Some? {
          bridges := bridges + [b.value];
        }
      }
    }
  }

  /** Each document is read as the bridges it says, or refused by its first fault. */
  lemma DocumentIsAnswered(read: ReadAddress, d: Document) returns (bridges: seq<Bridge>, error: Error)
    requires Valid(d)
    ensures |bridges| <= |d.items|
    ensures forall i | 0 <= i < |bridges| :: ItemDescribes(read, d.items[i], bridges[i])
    ensures |bridges| == |d.items| ==> Parsed(read, Render(d)) == Success(bridges)
    ensures |bridges| < |d.items| ==>
      ItemIsFaulty(read, d.items[|bridges|], error) && Parsed(read, Render(d)) == Failure(error)
  {
    hide Parsed, Render, ItemDescribes, ItemIsFaulty, ValidItem;
    bridges, error := BridgesBefore(read, d.items, |d.items|);
    if |bridges| == |d.items| {
      assert Says(read, d, bridges);
      BridgesAreReadAsSaid(read, Render(d), bridges);
    } else {
      FirstFaultIsNamed(read, d, bridges, error);
    }
  }
}
