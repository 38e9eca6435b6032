/** The box of the terminal prompt: whatever an agent's request holds, it is a rectangle
    of the window's width. */
module PromptBox {
  import opened Decimal
  import opened PlainText

  const MIN_BOX_WIDTH: nat := 40

  const TOP_LEFT: char := '\U{250c}'
  const TOP_RIGHT: char := '\U{2510}'
  const BOTTOM_LEFT: char := '\U{2514}'
  const BOTTOM_RIGHT: char := '\U{2518}'
  const HORIZONTAL: char := '\U{2500}'
  const VERTICAL: char := '\U{2502}'
  const DOT: char := '\U{b7}'

  predicate IsPrintable(c: char) { ' ' <= c <= '~' }

  /** What the box shows of a held request. */
  datatype Held = Held(request: string, origin: string, size: string, findings: string, catalog: string)

  function Repeat(c: char, n: nat): (s: string)
    ensures |s| == n && forall i | 0 <= i < n :: s[i] == c
  {
    seq(n, _ => c)
  }

  function AsciiOnly(text: string): (s: string)
    ensures |s| == |text|
    ensures forall i | 0 <= i < |s| :: s[i] == if text[i] as int < 0x80 then text[i] else '?'
  {
    seq(|text|, i requires 0 <= i < |text| => if text[i] as int < 0x80 then text[i] else '?')
  }

  /** At most `width` characters, with a tilde at the end if something is cut. */
  function Clamp(text: string, width: nat): (s: string)
    ensures |s| == if |text| <= width then |text| else width
    ensures |text| <= width ==> s == text
    ensures |text| > width > 0 ==> s == text[..width - 1] + "~"
  {
    if |text| <= width then text else if width == 0 then "" else text[..width - 1] + "~"
  }

  /** The text of a line as far as the box has room. */
  function Content(text: string): string { AsciiOnly(Plain(text)) }

  function Field(text: string, inner: nat): string {
    var clamped := Clamp(Content(text), inner);
    [VERTICAL, ' '] + clamped + Repeat(' ', inner - |clamped|) + [' ', VERTICAL]
  }

  function Countdown(left: nat): string { Padded(left / 60, 2) + ":" + Padded(left % 60, 2) }

  /** Subtraction that stops at zero. */
  function Less(a: nat, b: nat): nat { if a >= b then a - b else 0 }

  function HeadLine(position: (nat, nat), left: nat, width: nat): string {
    var clock := " " + Countdown(left) + " left ";
    var room := Less(width, |clock| + 4);
    var title := Clamp(" humanitl " + [DOT] + " request held (" + Digits(position.0) + " of " + Digits(position.1)
                       + ") ", room);
    [TOP_LEFT, HORIZONTAL] + title + Repeat(HORIZONTAL, room - |title|) + clock + [HORIZONTAL, TOP_RIGHT]
  }

  const WIDE := ["[a] allow once   [s] allow this session   [b] block   [r] rule   [e] edit",
                 "[v] view body    [n] next                 [Esc] close"]

  const NARROW := ["[a] allow once   [s] allow this session",
                   "[b] block        [r] rule",
                   "[e] edit         [v] view body",
                   "[n] next         [Esc] close"]

  function KeyRows(inner: nat): seq<string> {
    if AllFit(WIDE, inner) then WIDE else NARROW
  }

  function FieldsOf(texts: seq<string>, inner: nat): (lines: seq<string>)
    ensures |lines| == |texts| && forall i | 0 <= i < |lines| :: lines[i] == Field(texts[i], inner)
  {
    seq(|texts|, i requires 0 <= i < |texts| => Field(texts[i], inner))
  }

  function Labelled(name: string, text: string): seq<string> { if text == "" then [] else [name + text] }

  /** The texts of the box, top to bottom. */
  function Texts(held: Held, inner: nat): seq<string> {
    [held.request] + Labelled("from: ", held.origin) + Labelled("size: ", held.size)
    + Labelled("findings: ", held.findings) + Labelled("catalog: ", held.catalog) + [""] + KeyRows(inner)
  }

  method PromptLines(held: Held, position: (nat, nat), left: nat, width: nat)
    returns (lines: seq<string>)
    requires left < 0x1_0000_0000_0000_0000
    ensures var w := if width < 40 then 40 else width;
      && (forall i | 0 <= i < |lines| :: |lines[i]| == w)
      && |lines| >= 2 && lines[1..|lines| - 1] == FieldsOf(Texts(held, w - 4), w - 4)
      && lines[0] == HeadLine(position, left, w)
      && lines[|lines| - 1] == "\U{2514}" + Repeat('\U{2500}', w - 2) + "\U{2518}"
  {
    var w := if width < MIN_BOX_WIDTH then MIN_BOX_WIDTH else width;
    var inner := w - 4;
    hide Texts, HeadLine, Field;
    HeadIsFull(position, left, w);
    lines := [HeadLine(position, left, w)];
    var texts := Texts(held, inner);
    for i := 0 to |texts|
      invariant |lines| == 1 + i && lines[0] == HeadLine(position, left, w)
      invariant forall k | 0 <= k < i :: lines[1 + k] == Field(texts[k], inner)
    {
      lines := lines + [Field(texts[i], inner)];
    }
    var bottom := [BOTTOM_LEFT] + Repeat(HORIZONTAL, w - 2) + [BOTTOM_RIGHT];
    assert bottom == "\U{2514}" + Repeat('\U{2500}', w - 2) + "\U{2518}";
    lines := lines + [bottom];
    forall i | 0 <= i < |lines|
      ensures |lines[i]| == w
    {
      if 0 < i < |lines| - 1 {
        assert lines[1 + (i - 1)] == Field(texts[i - 1], inner);
        FieldIsFull(texts[i - 1], inner);
      }
    }
  }

  lemma FieldIsFull(text: string, inner: nat)
    ensures |Field(text, inner)| == inner + 4
  {
  }

  /** The clock never needs more room than the narrowest box has. */
  lemma HeadIsFull(position: (nat, nat), left: nat, width: nat)
    requires left < 0x1_0000_0000_0000_0000 && width >= MIN_BOX_WIDTH
    ensures |HeadLine(position, left, width)| == width
  {
    assert left / 60 < Pow10(20) by { TwentyDigits(); }
    DigitsCount(left / 60, 20);
    DigitsCount(left % 60, 2);
    assert Pow10(2) == 10 * Pow10(1) && Pow10(1) == 10 * Pow10(0);
  }

  lemma ContentIsPrintable(text: string)
    ensures forall i | 0 <= i < |Content(text)| :: IsPrintable(Content(text)[i])
  {
    hide Plain;
    PlainIsTidy(text);
  }

  /** Nothing a request holds reaches the terminal but printable ASCII. */
  lemma FieldsArePrintable(text: string, inner: nat)
    ensures var line := Field(text, inner);
      && |line| == inner + 4 && line[0] == line[inner + 3] == VERTICAL
      && forall i | 0 < i < |line| - 1 :: IsPrintable(line[i])
  {
    ContentIsPrintable(text);
    hide Content, IsPrintable;
    assert IsPrintable(' ') && IsPrintable('~') by { SpaceAndTilde(); }
  }

  lemma SpaceAndTilde()
    ensures IsPrintable(' ') && IsPrintable('~')
  {
  }

  predicate AllFit(rows: seq<string>, inner: nat) { forall i | 0 <= i < |rows| :: |rows[i]| <= inner }

  // ---- the key rows as they are drawn -----------------------------------------------------------

  /** Nothing of the text is cut off. */
  predicate IsWhole(text: string, inner: nat) { Clamp(Content(text), inner) == Content(text) }

  predicate AllWhole(rows: seq<string>, inner: nat) { forall i | 0 <= i < |rows| :: IsWhole(rows[i], inner) }

  predicate AllPrintable(s: string) { forall i | 0 <= i < |s| :: IsPrintable(s[i]) }

  lemma PrintableIsTidy(s: string)
    requires AllPrintable(s) && NoTwoSpaces(s) && |s| <= NOTE_MAX_CHARS
    requires s != "" ==> s[0] != ' ' && s[|s| - 1] != ' '
    ensures IsTidy(s)
  {
    forall i | 0 <= i < |s|
      ensures IsClean(s[i]) && !IsCombining(s[i])
    {
      assert IsPrintable(s[i]);
    }
  }

  const ONCE := "[a] allow once"
  const SESSION := "[s] allow this session"

  lemma KeysAreTidy()
    ensures AllPrintable(ONCE) && IsTidy(ONCE) && AllPrintable(SESSION) && IsTidy(SESSION)
  {
    PrintableIsTidy(ONCE);
    PrintableIsTidy(SESSION);
  }

  lemma RawFirstRow()
    ensures NARROW[0] == ONCE + "   " + SESSION
  {
  }

  /** The widest narrow row as it is drawn has 37 columns. */
  lemma FirstRow()
    ensures Plain(NARROW[0]) == Content(NARROW[0]) == ONCE + " " + SESSION
    ensures |ONCE + " " + SESSION| == 37
  {
    hide Plain, IsTidy;
    KeysAreTidy();
    RawFirstRow();
    assert |ONCE| == 14 && |SESSION| == 22;
    hide ONCE, SESSION, NARROW;
    PlainOfTwo(ONCE, "   ", SESSION);
    BothArePrintable(ONCE, SESSION);
    AsciiStays(ONCE + " " + SESSION);
  }

  lemma BothArePrintable(a: string, b: string)
    requires AllPrintable(a) && AllPrintable(b)
    ensures AllPrintable(a + " " + b)
  {
  }

  lemma AsciiStays(text: string)
    requires AllPrintable(text)
    ensures AsciiOnly(text) == text
  {
    forall i | 0 <= i < |text|
      ensures AsciiOnly(text)[i] == text[i]
    {
      assert IsPrintable(text[i]);
    }
  }

  /** Which rows are drawn is decided by their raw length; what is drawn of them is shorter,
      since runs of spaces fold. No key is cut off in any box but the narrowest one. */
  lemma KeysAreWhole(width: nat)
    requires width >= MIN_BOX_WIDTH
    ensures AllWhole(KeyRows(width - 4), width - 4) <==> width >= 41
  {
    hide Plain;
    assert |WIDE[0]| == 73 && |WIDE[1]| == 53;
    assert |NARROW[0]| == 39 && |NARROW[1]| == 25 && |NARROW[2]| == 30 && |NARROW[3]| == 28;
    var rows := KeyRows(width - 4);
    FirstRow();
    forall i | 0 <= i < |rows|
      ensures |Content(rows[i])| <= |rows[i]|
    {
      PlainIsTidy(rows[i]);
    }
    if !AllFit(WIDE, width - 4) {
      assert IsWhole(rows[0], width - 4) <==> width >= 41;
    }
  }

  /** In that one the first row loses the end of its second key's text. */
  lemma FortyColumnsCutAKey()
    ensures KeyRows(36) == NARROW
    ensures Field(NARROW[0], 36)
         == [VERTICAL, ' '] + (ONCE + " " + "[s] allow this sessi" + "~") + [' ', VERTICAL]
  {
    hide Plain, Content, Clamp;
    assert |WIDE[0]| == 73 && !AllFit(WIDE, 36);
    FirstRow();
    FirstRowCut();
    hide ONCE, WIDE, NARROW;
    assert Repeat(' ', 0) == "";
  }

  lemma FirstRowCut()
    ensures Clamp(ONCE + " " + SESSION, 36) == ONCE + " " + "[s] allow this sessi" + "~"
    ensures |Clamp(ONCE + " " + SESSION, 36)| == 36
  {
    assert |ONCE| == 14 && SESSION[..20] == "[s] allow this sessi";
    assert (ONCE + " " + SESSION)[..35] == ONCE + " " + SESSION[..20];
  }
}
