/** What the three variables of the environment say, as texts: names between commas, with any
    whitespace around them; and that the policy is exactly that. */
module SeccompTexts {
  import opened Wrappers
  import opened Bpf
  import opened Lists
  import opened Seccomp
  import opened SeccompPolicy
  import opened Texts

  // ---- texts ---------------------------------------------------------------------------------

  /** What stands between two commas; the name may be missing. */
  datatype Part = Part(before: string, name: string, after: string)

  predicate AllWhite(s: string) { forall i | 0 <= i < |s| :: IsWhitespace(s[i]) }

  predicate IsPart(p: Part) {
    && AllWhite(p.before) && AllWhite(p.after) && ',' !in p.name
    && (p.name != "" ==> !IsWhitespace(p.name[0]) && !IsWhitespace(p.name[|p.name| - 1]))
  }

  predicate AreParts(parts: seq<Part>) { parts != [] && forall i | 0 <= i < |parts| :: IsPart(parts[i]) }

  function PartText(p: Part): string { p.before + p.name + p.after }

  function PartTexts(parts: seq<Part>): (texts: seq<string>)
    ensures |texts| == |parts|
  {
    seq(|parts|, i requires 0 <= i < |parts| => PartText(parts[i]))
  }

  function Written(parts: seq<Part>): string
    requires parts != []
  {
    Join(PartTexts(parts), ',')
  }

  /** The names, without the missing ones. */
  function NamesIn(parts: seq<Part>): seq<string> {
    if parts == [] then []
    else (if parts[0].name == "" then [] else [parts[0].name]) + NamesIn(parts[1..])
  }

  lemma {:induction false} TrimFront(white: string, text: string)
    requires AllWhite(white)
    ensures Trim(white + text) == Trim(text)
  {
    hide IsWhitespace;
    if white == "" {
      assert white + text == text;
    } else {
      assert forall i | 0 <= i < |white| - 1 :: white[1..][i] == white[i + 1];
      assert (white + text)[1..] == white[1..] + text;
      TrimFront(white[1..], text);
    }
  }

  lemma {:induction false} TrimBack(text: string, white: string)
    requires AllWhite(white) && text != "" && !IsWhitespace(text[0])
    ensures Trim(text + white) == Trim(text)
    decreases |white|
  {
    hide IsWhitespace;
    if white == "" {
      assert text + white == text;
    } else {
      var n := |white| - 1;
      assert (text + white)[..|text| + n] == text + white[..n];
      TrimBack(text, white[..n]);
    }
  }

  lemma TrimOfPart(p: Part)
    requires IsPart(p)
    ensures Trim(PartText(p)) == p.name
  {
    hide IsWhitespace;
    var rest := p.name + p.after;
    assert PartText(p) == p.before + rest;
    TrimFront(p.before, rest);
    if p.name == "" {
      assert rest == p.after + "";
      TrimFront(p.after, "");
    } else {
      TrimBack(p.name, p.after);
    }
  }

  lemma NoCommaInPart(p: Part)
    requires IsPart(p)
    ensures ',' !in PartText(p)
  {
    hide PartText;
    assert PartText(p) == p.before + p.name + p.after by { TextOfPart(p); }
    assert !IsWhitespace(',');
  }

  lemma TextOfPart(p: Part)
    ensures PartText(p) == p.before + p.name + p.after
  {
  }

  lemma {:induction false} TrimEach(parts: seq<Part>)
    requires forall i | 0 <= i < |parts| :: IsPart(parts[i])
    ensures TrimAll(PartTexts(parts)) == NamesIn(parts)
  {
    hide IsPart, PartText;
    if parts != [] {
      var rest := parts[1..];
      assert forall i | 0 <= i < |rest| :: rest[i] == parts[i + 1];
      TrimEach(rest);
      TrimOfPart(parts[0]);
      assert PartTexts(parts)[1..] == PartTexts(rest);
    }
  }

  /** The items of a text are its names. */
  lemma ItemsOfWritten(parts: seq<Part>)
    requires AreParts(parts)
    ensures Items(Written(parts)) == NamesIn(parts)
  {
    hide IsPart, PartText;
    var texts := PartTexts(parts);
    forall text | text in texts
      ensures ',' !in text
    {
      var i :| 0 <= i < |texts| && texts[i] == text;
      NoCommaInPart(parts[i]);
    }
    SplitOfJoin(texts, ',');
    TrimEach(parts);
  }

  lemma {:induction false} PartOf(text: string) returns (p: Part)
    requires ',' !in text
    ensures IsPart(p) && PartText(p) == text
    decreases |text|
  {
    hide IsWhitespace, PartText;
    if text == "" {
      p := Part("", "", "");
      TextOfPart(p);
    } else if IsWhitespace(text[0]) {
      var q := PartOf(text[1..]);
      p := q.(before := [text[0]] + q.before);
      assert forall i | 0 < i < |p.before| :: p.before[i] == q.before[i - 1];
      MoreBefore(q, text[0]);
      assert text == [text[0]] + text[1..];
    } else if IsWhitespace(text[|text| - 1]) {
      var q := PartOf(text[..|text| - 1]);
      p := q.(after := q.after + [text[|text| - 1]]);
      MoreAfter(q, text[|text| - 1]);
      assert text == text[..|text| - 1] + [text[|text| - 1]];
    } else {
      p := Part("", text, "");
      TextOfPart(p);
      assert "" + text + "" == text;
    }
  }

  lemma MoreBefore(p: Part, c: char)
    ensures PartText(p.(before := [c] + p.before)) == [c] + PartText(p)
  {
    assert [c] + p.before + p.name + p.after == [c] + (p.before + p.name + p.after);
  }

  lemma MoreAfter(p: Part, c: char)
    ensures PartText(p.(after := p.after + [c])) == PartText(p) + [c]
  {
  }

  /** Every text is written like that. */
  lemma EveryTextIsWritten(text: string) returns (parts: seq<Part>)
    ensures AreParts(parts) && Written(parts) == text
  {
    hide IsPart, PartText;
    var texts := Split(text, ',');
    JoinOfSplit(text, ',');
    parts := [];
    for i := 0 to |texts|
      invariant |parts| == i
      invariant forall k | 0 <= k < i :: IsPart(parts[k]) && PartText(parts[k]) == texts[k]
    {
      assert texts[i] in texts;
      var p := PartOf(texts[i]);
      parts := parts + [p];
    }
    assert PartTexts(parts) == texts;
  }

  // ---- lists of names --------------------------------------------------------------------------

  /** The names in the order in which they first come. */
  function FirstMentions(names: seq<string>): (r: seq<string>)
    ensures forall n :: n in r <==> n in names
  {
    if names == [] then []
    else
      var before, last := FirstMentions(names[..|names| - 1]), names[|names| - 1];
      assert names == names[..|names| - 1] + [last];
      if last in before then before else before + [last]
  }

  /** The entries of the names, each once, in that order. */
  ghost predicate AreEntries<T>(list: seq<T>, names: seq<string>, lookup: string -> Result<T, Error>) {
    && |list| == |FirstMentions(names)|
    && forall i | 0 <= i < |list| :: lookup(FirstMentions(names)[i]) == Success(list[i])
  }

  lemma {:induction false} CollectedEntries<T>(names: seq<string>, lookup: string -> Result<T, Error>,
                                               nameOf: T -> string)
    requires forall n | lookup(n).Success? :: nameOf(lookup(n).value) == n
    requires Collect(names, lookup).Success?
    ensures AreEntries(Collect(names, lookup).value, names, lookup)
  {
    if names != [] {
      var before, last := names[..|names| - 1], names[|names| - 1];
      CollectedEntries(before, lookup, nameOf);
      var list, entry := Collect(before, lookup).value, lookup(last).value;
      var mentions := FirstMentions(before);
      if entry in list {
        var i :| 0 <= i < |list| && list[i] == entry;
        assert mentions[i] == last;
      }
      if last in mentions {
        var i :| 0 <= i < |mentions| && mentions[i] == last;
        assert list[i] == entry;
      }
    }
  }

  /** The first name that is not known, and what it fails with. */
  ghost predicate FailsAtFirst<T>(names: seq<string>, lookup: string -> Result<T, Error>, error: Error) {
    exists i | 0 <= i < |names| ::
      lookup(names[i]) == Failure(error) && forall j | 0 <= j < i :: lookup(names[j]).Success?
  }

  ghost predicate AllFound<T>(names: seq<string>, lookup: string -> Result<T, Error>) {
    forall i | 0 <= i < |names| :: lookup(names[i]).Success?
  }

  /** Names collected: all or the first failure. */
  lemma CollectedOrFailed<T>(names: seq<string>, lookup: string -> Result<T, Error>, nameOf: T -> string)
    requires forall n | lookup(n).Success? :: nameOf(lookup(n).value) == n
    ensures var r := Collect(names, lookup);
      && (r.Success? <==> AllFound(names, lookup))
      && (r.Success? ==> AreEntries(r.value, names, lookup) && (r.value == [] <==> names == []))
      && (r.Failure? ==> FailsAtFirst(names, lookup, r.error))
  {
    CollectMeaning(names, lookup);
    hide Collect;
    if Collect(names, lookup).Success? {
      CollectedEntries(names, lookup, nameOf);
      if names != [] {
        assert names[0] in FirstMentions(names);
      }
    }
  }

  lemma ListFromText<T>(parts: seq<Part>, variable: string, lookup: string -> Result<T, Error>, nameOf: T -> string)
    requires AreParts(parts) && forall n | lookup(n).Success? :: nameOf(lookup(n).value) == n
    ensures var names, r := NamesIn(parts), ListOf(Written(parts), variable, lookup);
      && (r.Success? <==> names != [] && AllFound(names, lookup))
      && (r.Success? ==> AreEntries(r.value, names, lookup))
      && (r.Failure? ==>
            if names == [] then r.error == EmptyList(variable) else FailsAtFirst(names, lookup, r.error))
  {
    hide Items, Written, NamesIn, Collect, AreEntries, IsPart;
    ItemsOfWritten(parts);
    CollectedOrFailed(NamesIn(parts), lookup, nameOf);
  }

  // ---- what is known ------------------------------------------------------------------------------

  function FamilyNumber(name: string): Option<U32> {
    if name == "AF_UNIX" then Some(1)
    else if name == "AF_INET" then Some(2)
    else if name == "AF_INET6" then Some(10)
    else None
  }

  function TypeNumber(name: string): Option<U32> {
    if name == "SOCK_STREAM" then Some(1) else if name == "SOCK_DGRAM" then Some(2) else None
  }

  lemma FamilyIsKnown(name: string)
    ensures LookupFamily(FAMILIES, name) ==
      if FamilyNumber(name).Some? then Success(Family(name, FamilyNumber(name).value))
      else Failure(UnknownFamily(name))
  {
    LookupFamilyNext(FAMILIES, name);
    LookupFamilyNext(FAMILIES[1..], name);
    LookupFamilyNext(FAMILIES[2..], name);
  }

  lemma {:induction false} LookupFamilyNext(table: seq<Family>, name: string)
    requires table != []
    ensures LookupFamily(table, name) ==
      if table[0].name == name then Success(table[0])
      else if |table| == 1 then Failure(UnknownFamily(name)) else LookupFamily(table[1..], name)
  {
  }

  lemma TypeIsKnown(name: string)
    ensures LookupType(SOCK_TYPES, name) ==
      if TypeNumber(name).Some? then Success(SockType(name, TypeNumber(name).value))
      else Failure(UnknownType(name))
  {
    LookupTypeNext(SOCK_TYPES, name);
    LookupTypeNext(SOCK_TYPES[1..], name);
  }

  lemma {:induction false} LookupTypeNext(table: seq<SockType>, name: string)
    requires table != []
    ensures LookupType(table, name) ==
      if table[0].name == name then Success(table[0])
      else if |table| == 1 then Failure(UnknownType(name)) else LookupType(table[1..], name)
  {
  }

  predicate HasSyscall(table: seq<Syscall>, name: string) { exists i | 0 <= i < |table| :: table[i].name == name }

  lemma SyscallIsKnown(table: seq<Syscall>, name: string)
    ensures LookupSyscall(table, name).Success? <==> HasSyscall(table, name)
    ensures LookupSyscall(table, name).Failure? ==> LookupSyscall(table, name).error == UnknownSyscall(name)
  {
  }

  // ---- the policy ------------------------------------------------------------------------------------

  function TextOf(parts: Option<seq<Part>>): Option<string>
    requires parts.Some? ==> parts.value != []
  {
    if parts.None? then None else Some(Written(parts.value))
  }

  function NamesOr(parts: Option<seq<Part>>, absent: seq<string>): seq<string> {
    if parts.None? then absent else NamesIn(parts.value)
  }

  ghost predicate AreTexts(parts: Option<seq<Part>>) { parts.Some? ==> AreParts(parts.value) }

  const INET: seq<string> := ["AF_INET", "AF_INET6"]
  const STREAM: seq<string> := ["SOCK_STREAM"]

  /** The lists as they should be: the known entries of the names, in order. */
  ghost predicate FamiliesAre(list: seq<Family>, names: seq<string>) {
    && |list| == |FirstMentions(names)|
    && forall i | 0 <= i < |list| ::
         list[i].name == FirstMentions(names)[i] && FamilyNumber(list[i].name) == Some(list[i].number)
  }

  ghost predicate TypesAre(list: seq<SockType>, names: seq<string>) {
    && |list| == |FirstMentions(names)|
    && forall i | 0 <= i < |list| ::
         list[i].name == FirstMentions(names)[i] && TypeNumber(list[i].name) == Some(list[i].number)
  }

  ghost predicate DenialsAre(list: seq<Syscall>, names: seq<string>, table: seq<Syscall>) {
    && |list| == |FirstMentions(names)|
    && forall i | 0 <= i < |list| :: list[i].name == FirstMentions(names)[i] && list[i] in table
  }

  predicate IsFamily(name: string) { FamilyNumber(name).Some? }

  predicate IsType(name: string) { TypeNumber(name).Some? }

  ghost predicate AllKnown(names: seq<string>, isKnown: string -> bool) {
    forall i | 0 <= i < |names| :: isKnown(names[i])
  }

  /** The first name that is not known. */
  ghost predicate FirstUnknown(names: seq<string>, isKnown: string -> bool, name: string) {
    exists i | 0 <= i < |names| :: names[i] == name && !isKnown(name) && forall j | 0 <= j < i :: isKnown(names[j])
  }

  function FamilyLookup(): string -> Result<Family, Error> { (name: string) => LookupFamily(FAMILIES, name) }

  lemma FamilyEntries(list: seq<Family>, names: seq<string>)
    requires AreEntries(list, names, FamilyLookup())
    ensures FamiliesAre(list, names)
  {
    hide FirstMentions, FAMILIES, LookupFamily, FamilyNumber;
    forall i | 0 <= i < |list|
      ensures list[i].name == FirstMentions(names)[i] && FamilyNumber(list[i].name) == Some(list[i].number)
    {
      FamilyIsKnown(FirstMentions(names)[i]);
    }
  }

  lemma FamilyFailure(names: seq<string>, error: Error)
    requires FailsAtFirst(names, FamilyLookup(), error)
    ensures error.UnknownFamily? && FirstUnknown(names, IsFamily, error.name)
  {
    hide FAMILIES, LookupFamily, FamilyNumber;
    forall n { FamilyIsKnown(n); }
  }

  lemma FamilyFound(names: seq<string>)
    ensures AllFound(names, FamilyLookup()) <==> AllKnown(names, IsFamily)
  {
    hide FAMILIES, LookupFamily, FamilyNumber;
    forall n { FamilyIsKnown(n); }
  }

  lemma FamiliesFromText(parts: Option<seq<Part>>)
    requires AreTexts(parts)
    ensures var names := NamesOr(parts, INET); var r := FamiliesOf(TextOf(parts));
      && (r.Success? <==> names != [] && AllKnown(names, IsFamily))
      && (r.Success? ==> FamiliesAre(r.value, names))
      && (r.Failure? ==>
            if names == [] then r.error == EmptyList("HUMANITL_SECCOMP_FAMILIES")
            else r.error.UnknownFamily? && FirstUnknown(names, IsFamily, r.error.name))
  {
    if parts.None? {
      InetAlone();
    } else {
      var names, r := NamesIn(parts.value), FamiliesOf(TextOf(parts));
      hide Written, NamesIn, AreParts, ListOf, AreEntries, AllFound, AllKnown, FailsAtFirst, FirstUnknown, FamiliesAre;
      forall n { FamilyIsKnown(n); }
      ListFromText(parts.value, "HUMANITL_SECCOMP_FAMILIES", FamilyLookup(), (f: Family) => f.name);
      FamilyFound(names);
      if r.Success? {
        FamilyEntries(r.value, names);
      } else if names != [] {
        FamilyFailure(names, r.error);
      }
    }
  }

  lemma InetAlone()
    ensures FirstMentions(INET) == INET && FamilyNumber("AF_INET") == Some(2) && FamilyNumber("AF_INET6") == Some(10)
  {
    assert INET[..1] == ["AF_INET"] && INET[..1][..0] == [];
  }

  function TypeLookup(): string -> Result<SockType, Error> { (name: string) => LookupType(SOCK_TYPES, name) }

  lemma TypeEntries(list: seq<SockType>, names: seq<string>)
    requires AreEntries(list, names, TypeLookup())
    ensures TypesAre(list, names)
  {
    hide FirstMentions, SOCK_TYPES, LookupType, TypeNumber;
    forall i | 0 <= i < |list|
      ensures list[i].name == FirstMentions(names)[i] && TypeNumber(list[i].name) == Some(list[i].number)
    {
      TypeIsKnown(FirstMentions(names)[i]);
    }
  }

  lemma TypeFailure(names: seq<string>, error: Error)
    requires FailsAtFirst(names, TypeLookup(), error)
    ensures error.UnknownType? && FirstUnknown(names, IsType, error.name)
  {
    hide SOCK_TYPES, LookupType, TypeNumber;
    forall n { TypeIsKnown(n); }
  }

  lemma TypeFound(names: seq<string>)
    ensures AllFound(names, TypeLookup()) <==> AllKnown(names, IsType)
  {
    hide SOCK_TYPES, LookupType, TypeNumber;
    forall n { TypeIsKnown(n); }
  }

  lemma TypesFromText(parts: Option<seq<Part>>)
    requires AreTexts(parts)
    ensures var names := NamesOr(parts, STREAM); var r := TypesOf(TextOf(parts));
      && (r.Success? <==> names != [] && AllKnown(names, IsType))
      && (r.Success? ==> TypesAre(r.value, names))
      && (r.Failure? ==>
            if names == [] then r.error == EmptyList("HUMANITL_SECCOMP_TYPES")
            else r.error.UnknownType? && FirstUnknown(names, IsType, r.error.name))
  {
    if parts.None? {
      assert STREAM[..0] == [] && FirstMentions(STREAM) == STREAM && TypeNumber("SOCK_STREAM") == Some(1);
    } else {
      var names, r := NamesIn(parts.value), TypesOf(TextOf(parts));
      hide Written, NamesIn, AreParts, ListOf, AreEntries, AllFound, AllKnown, FailsAtFirst, FirstUnknown, TypesAre;
      forall n { TypeIsKnown(n); }
      ListFromText(parts.value, "HUMANITL_SECCOMP_TYPES", TypeLookup(), (t: SockType) => t.name);
      TypeFound(names);
      if r.Success? {
        TypeEntries(r.value, names);
      } else if names != [] {
        TypeFailure(names, r.error);
      }
    }
  }

  /** The deny list names the floor and what the text names, and nothing else. */
  lemma DenialsFromText(parts: Option<seq<Part>>, table: seq<Syscall>)
    requires AreTexts(parts)
    ensures var names := FLOOR + NamesOr(parts, []); var r := DenyOf(TextOf(parts), table);
      && (r.Success? <==> AllKnown(names, n => HasSyscall(table, n)))
      && (r.Success? ==> DenialsAre(r.value, names, table))
      && (r.Failure? ==>
            r.error.UnknownSyscall? && FirstUnknown(names, n => HasSyscall(table, n), r.error.name))
  {
    var lookup := (name: string) => LookupSyscall(table, name);
    var names := FLOOR + NamesOr(parts, []);
    hide FLOOR, Written, LookupSyscall, HasSyscall, NamesIn, IsPart, Collect, Items;
    if parts.Some? {
      ItemsOfWritten(parts.value);
    }
    assert NamedBy(TextOf(parts)) == NamesOr(parts, []);
    forall n { SyscallIsKnown(table, n); }
    CollectedOrFailed(names, lookup, (s: Syscall) => s.name);
  }

  /** The policy is exactly what the three texts name: it exists if and only if all names are
      known and no list is empty; it then holds the families, types and denied calls of those
      names, each once, in their order, and nothing else; and otherwise the first thing that
      is wrong is named, families before types before calls. */
  lemma PolicyIsWhatTheTextsName(families: Option<seq<Part>>, types: Option<seq<Part>>, deny: Option<seq<Part>>,
                                 table: seq<Syscall>)
    requires AreTexts(families) && AreTexts(types) && AreTexts(deny)
    ensures var f, t, d := NamesOr(families, INET), NamesOr(types, STREAM), FLOOR + NamesOr(deny, []);
      var r := PolicyOf(TextOf(families), TextOf(types), TextOf(deny), table);
      var familiesRight := f != [] && AllKnown(f, IsFamily);
      var typesRight := t != [] && AllKnown(t, IsType);
      var isCall := n => HasSyscall(table, n);
      && (r.Success? <==> familiesRight && typesRight && AllKnown(d, isCall))
      && (r.Success? ==>
            FamiliesAre(r.value.families, f) && TypesAre(r.value.types, t) && DenialsAre(r.value.deny, d, table))
      && (r.Failure? && !familiesRight ==>
            if f == [] then r.error == EmptyList("HUMANITL_SECCOMP_FAMILIES")
            else r.error.UnknownFamily? && FirstUnknown(f, IsFamily, r.error.name))
      && (r.Failure? && familiesRight && !typesRight ==>
            if t == [] then r.error == EmptyList("HUMANITL_SECCOMP_TYPES")
            else r.error.UnknownType? && FirstUnknown(t, IsType, r.error.name))
      && (r.Failure? && familiesRight && typesRight ==>
            r.error.UnknownSyscall? && FirstUnknown(d, isCall, r.error.name))
  {
    hide FLOOR, Written, NamesIn, IsPart, FamiliesOf, TypesOf, DenyOf, FamiliesAre, TypesAre, DenialsAre, AllKnown,
         FirstUnknown, TextOf;
    FamiliesFromText(families);
    TypesFromText(types);
    DenialsFromText(deny, table);
  }

  /** No call of a name in the text is ever allowed, with either gate. */
  lemma NamedCallsAreDenied(families: Option<seq<Part>>, types: Option<seq<Part>>, deny: seq<Part>,
                            table: seq<Syscall>, name: string, target: Target, gate: Gate)
    requires AreTexts(families) && AreTexts(types) && AreParts(deny) && name in NamesIn(deny)
    requires PolicyOf(TextOf(families), TextOf(types), Some(Written(deny)), table).Success?
    ensures var policy := PolicyOf(TextOf(families), TextOf(types), Some(Written(deny)), table).value;
      exists i | 0 <= i < |policy.deny| :: policy.deny[i].name == name && policy.deny[i] in table
        && forall call: Call | call.nr == policy.deny[i].nr :: Decide(target, policy, gate, call) != None
  {
    hide FLOOR, Written, NamesIn, IsPart, PolicyOf, FamiliesAre, TypesAre, AllKnown, FirstUnknown;
    PolicyIsWhatTheTextsName(families, types, Some(deny), table);
    var policy := PolicyOf(TextOf(families), TextOf(types), Some(Written(deny)), table).value;
    var names := FLOOR + NamesIn(deny);
    assert name in names && name in FirstMentions(names);
    var k :| 0 <= k < |FirstMentions(names)| && FirstMentions(names)[k] == name;
    hide Decide;
    forall call: Call | call.nr == policy.deny[k].nr
      ensures Decide(target, policy, gate, call) != None
    {
      DecideUnfolds(target, policy, gate, call);
    }
  }
}
