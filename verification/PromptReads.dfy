/** The box of a held request as a person reads it: what each line says, and where. */
module PromptReads {
  import opened Decimal
  import opened PlainText
  import opened PromptBox

  /** A text the box shows as it is: printable, with single spaces inside and none at its
      ends, and not too long. */
  predicate IsShort(text: string, inner: nat) {
    && AllPrintable(text) && NoTwoSpaces(text) && |text| <= inner && |text| <= 500
    && (text != "" ==> text[0] != ' ' && text[|text| - 1] != ' ')
  }

  /** The text between the edges, with spaces up to the right one. */
  lemma ShortLine(text: string, inner: nat)
    requires IsShort(text, inner)
    ensures Field(text, inner) == "\U{2502} " + text + Repeat(' ', inner - |text|) + " \U{2502}"
  {
    PrintableIsTidy(text);
    TidyStays(text);
    AsciiStays(text);
    hide Plain, IsTidy, AllPrintable;
    assert [VERTICAL, ' '] == "\U{2502} " && [' ', VERTICAL] == " \U{2502}";
  }

  /** Of any clean text a character beyond ASCII stands as a question mark. */
  lemma ForeignCharacters(text: string, inner: nat, i: nat)
    requires IsTidy(text) && |text| <= inner && i < |text|
    ensures Field(text, inner)[2 + i] == if text[i] as int < 128 then text[i] else '?'
  {
    TidyStays(text);
    hide Plain, IsTidy;
  }

  /** A longer one is cut in front of the last column, which says so. */
  lemma LongLine(text: string, inner: nat)
    requires IsShort(text, |text|) && |text| > inner > 0
    ensures Field(text, inner) == "\U{2502} " + (text[..inner - 1] + "~") + " \U{2502}"
  {
    PrintableIsTidy(text);
    TidyStays(text);
    AsciiStays(text);
    hide Plain, IsTidy, AllPrintable, NoTwoSpaces;
    CutLine(text, inner);
  }

  lemma CutLine(text: string, inner: nat)
    requires Content(text) == text && |text| > inner > 0
    ensures Field(text, inner) == "\U{2502} " + (text[..inner - 1] + "~") + " \U{2502}"
  {
    hide Content;
    var cut := text[..inner - 1] + "~";
    assert Clamp(text, inner) == cut && |cut| == inner && Repeat(' ', 0) == "";
    assert [VERTICAL, ' '] == "\U{2502} " && [' ', VERTICAL] == " \U{2502}";
  }

  /** A line for each text that there is, behind its name. */
  function Named(texts: seq<(string, string)>): seq<string> {
    if texts == [] then []
    else (if texts[0].1 == "" then [] else [texts[0].0 + texts[0].1]) + Named(texts[1..])
  }

  /** The lines of a request, top to bottom: what it is, then what is known of it by name,
      an empty line and the keys. */
  lemma LinesByName(held: Held, inner: nat)
    ensures PromptBox.Texts(held, inner) ==
      [held.request]
      + Named([("from: ", held.origin), ("size: ", held.size), ("findings: ", held.findings),
               ("catalog: ", held.catalog)])
      + [""] + KeyRows(inner)
  {
    hide KeyRows;
    FourNamed("from: ", held.origin, "size: ", held.size, "findings: ", held.findings, "catalog: ", held.catalog);
    var a, b := Labelled("from: ", held.origin), Labelled("size: ", held.size);
    var c, d := Labelled("findings: ", held.findings), Labelled("catalog: ", held.catalog);
    hide Labelled;
    assert [held.request] + a + b + c + d == [held.request] + (a + (b + (c + d)));
  }

  lemma FourNamed(n1: string, t1: string, n2: string, t2: string, n3: string, t3: string, n4: string, t4: string)
    ensures Named([(n1, t1), (n2, t2), (n3, t3), (n4, t4)]) ==
      Labelled(n1, t1) + (Labelled(n2, t2) + (Labelled(n3, t3) + Labelled(n4, t4)))
  {
    hide Labelled;
    NamedNext(n1, t1, [(n2, t2), (n3, t3), (n4, t4)]);
    NamedNext(n2, t2, [(n3, t3), (n4, t4)]);
    NamedNext(n3, t3, [(n4, t4)]);
    NamedNext(n4, t4, []);
    assert [(n1, t1)] + [(n2, t2), (n3, t3), (n4, t4)] == [(n1, t1), (n2, t2), (n3, t3), (n4, t4)];
    assert [(n2, t2)] + [(n3, t3), (n4, t4)] == [(n2, t2), (n3, t3), (n4, t4)];
    assert [(n3, t3)] + [(n4, t4)] == [(n3, t3), (n4, t4)];
    assert [(n4, t4)] + [] == [(n4, t4)] && Named([]) == [] && Labelled(n4, t4) + [] == Labelled(n4, t4);
  }

  lemma {:induction false} NamedNext(name: string, text: string, rest: seq<(string, string)>)
    ensures Named([(name, text)] + rest) == Labelled(name, text) + Named(rest)
  {
    assert ([(name, text)] + rest)[1..] == rest;
  }

  /** Each key stands in the box, with what it does. */
  lemma KeysByRow(inner: nat)
    ensures KeyRows(inner) ==
      if inner >= 73 then
        ["[a] allow once   [s] allow this session   [b] block   [r] rule   [e] edit",
         "[v] view body    [n] next                 [Esc] close"]
      else
        ["[a] allow once   [s] allow this session", "[b] block        [r] rule",
         "[e] edit         [v] view body", "[n] next         [Esc] close"]
  {
    assert |WIDE[0]| == 73 && |WIDE[1]| == 53;
  }

  function Title(place: string, all: string): string {
    " humanitl \U{b7} request held (" + place + " of " + all + ") "
  }

  function Clock(minutes: string, seconds: string): string { " " + minutes + ":" + seconds + " left " }

  /** The head names the place in the queue and the time that is left, whole in a box that is
      wide enough for them. */
  lemma HeadReads(position: (nat, nat), left: nat, width: nat)
    returns (place: string, all: string, minutes: string, seconds: string)
    ensures AreDigits(place) && NumberOf(place) == position.0 && AreDigits(all) && NumberOf(all) == position.1
    ensures AreDigits(minutes) && |minutes| >= 2 && AreDigits(seconds) && |seconds| == 2
    ensures NumberOf(seconds) < 60 && 60 * NumberOf(minutes) + NumberOf(seconds) == left
    ensures |Title(place, all)| + |Clock(minutes, seconds)| + 4 <= width ==>
      HeadLine(position, left, width) == Head(Title(place, all), Clock(minutes, seconds), width)
  {
    place, all, minutes, seconds := Digits(position.0), Digits(position.1), Padded(left / 60, 2), Padded(left % 60, 2);
    DigitsWriteTheNumber(position.0);
    DigitsWriteTheNumber(position.1);
    TwoDigits(left / 60);
    TwoDigits(left % 60);
    DigitsCount(left % 60, 2);
    assert Pow10(2) == 10 * Pow10(1) && Pow10(1) == 10 * Pow10(0);
    hide Digits, Padded, NumberOf, Title, Clock;
    HeadIs(position, left, width);
  }

  /** The title on the left, the clock on the right, and the line between them. */
  function Head(title: string, clock: string, width: nat): string
    requires |title| + |clock| + 4 <= width
  {
    "\U{250c}\U{2500}" + title + Repeat('\U{2500}', width - |title| - |clock| - 4) + clock + "\U{2500}\U{2510}"
  }

  lemma HeadIs(position: (nat, nat), left: nat, width: nat)
    ensures var title := Title(Digits(position.0), Digits(position.1));
      var clock := Clock(Padded(left / 60, 2), Padded(left % 60, 2));
      |title| + |clock| + 4 <= width ==> HeadLine(position, left, width) == Head(title, clock, width)
  {
    hide Digits, Padded, Repeat;
    TitleIs(Digits(position.0), Digits(position.1));
    ClockIs(Padded(left / 60, 2), Padded(left % 60, 2));
    hide Title, Clock;
    assert [TOP_LEFT, HORIZONTAL] == "\U{250c}\U{2500}" && [HORIZONTAL, TOP_RIGHT] == "\U{2500}\U{2510}";
  }

  lemma TitleIs(place: string, all: string)
    ensures " humanitl " + [DOT] + " request held (" + place + " of " + all + ") " == Title(place, all)
  {
    assert " humanitl " + [DOT] + " request held (" == " humanitl \U{b7} request held (";
  }

  lemma ClockIs(minutes: string, seconds: string)
    ensures " " + (minutes + ":" + seconds) + " left " == Clock(minutes, seconds)
  {
  }

  lemma TwoDigits(value: nat)
    ensures AreDigits(Padded(value, 2)) && NumberOf(Padded(value, 2)) == value
  {
    DigitsWriteTheNumber(value);
    if |Digits(value)| < 2 {
      PaddedWritesTheNumber(value, 2 - |Digits(value)|);
    }
  }
}
