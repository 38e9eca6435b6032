/** What cleaning a text keeps: the words of what can be seen of it, one space between them. */
module PlainWords {
  import opened Wrappers
  import opened Texts
  import opened PlainText

  /** What is to be seen of one character: a line break is a space, a tab stays, another
      control character and one without width are nothing, another space is a space. */
  function Shown(c: char): string {
    if c as int in {0x0A, 0x0D, 0x2028, 0x2029} then " "
    else if c as int == 0x09 then "\t"
    else if c as int / 0x20 == 0 || 0x7F <= c as int < 0xA0 then ""
    else if IsWithoutWidth(c as int) then ""
    else if IsSpace(c as int) then " "
    else [c]
  }

  /** Soft hyphen, joiners, marks of direction, fillers and tags. */
  predicate IsWithoutWidth(code: int) {
    || code in {0xAD, 0x34F, 0x61C, 0x180E, 0xFEFF}
    || 0x200B <= code < 0x2010 || 0x202A <= code < 0x202F || 0x2060 <= code < 0x2065 || 0x2066 <= code < 0x206A
    || code / 0x80 == 0x1C00
  }

  /** The space characters of Unicode that are no control characters. */
  predicate IsSpace(code: int) {
    code in {0x20, 0xA0, 0x1680, 0x2028, 0x2029, 0x202F, 0x205F, 0x3000} || 0x2000 <= code < 0x200B
  }

  function Visible(text: string): string {
    if text == "" then "" else Visible(text[..|text| - 1]) + Shown(text[|text| - 1])
  }

  lemma ShownIsMapped(c: char)
    ensures Shown(c) == if Mapped(c).None? then "" else [Mapped(c).value]
  {
  }

  /** The blocks of combining marks. */
  lemma MarksByBlock(c: char)
    ensures IsCombining(c) <==> (0x300 <= c as int < 0x370 || 0x483 <= c as int < 0x48A || 0x1AB0 <= c as int < 0x1B00
      || 0x1DC0 <= c as int < 0x1E00 || 0x20D0 <= c as int < 0x20F1 || 0xFE20 <= c as int < 0xFE30)
  {
  }

  /** The marks at the end of a text, all in a row. */
  function MarksInARow(s: string): nat {
    if s == "" || !IsCombining(s[|s| - 1]) then 0 else 1 + MarksInARow(s[..|s| - 1])
  }

  lemma {:induction false} FewMarks(s: string)
    requires NoPile(s)
    ensures MarksInARow(s) <= 2
  {
    var n := |s|;
    hide IsCombining;
    if n >= 3 && IsCombining(s[n - 1]) && IsCombining(s[n - 2]) {
      assert !IsCombining(s[n - 3]);
      var one := s[..n - 1];
      var two := one[..n - 2];
      assert one[n - 2] == s[n - 2] && two[n - 3] == s[n - 3];
      assert MarksInARow(two) == 0 && MarksInARow(one) == 1;
    } else if n >= 2 {
      var one := s[..n - 1];
      assert one[n - 2] == s[n - 2];
      assert n == 2 ==> one[..0] == "" && MarksInARow("") == 0 && MarksInARow(one) <= 1;
    }
  }

  /** The scan has the words of what is seen, ends where it ends, and counts its marks. */
  predicate Agrees(s: Scan, seen: string) {
    && OneLine(s.out) == OneLine(seen) && |s.out| <= |seen|
    && (EndsWord(s.out) <==> EndsWord(seen))
    && s.marks == MarksInARow(seen)
    && (s.afterSpace ==> !EndsWord(seen))
  }

  /** What one more character does to the marks and to the words of a text. */
  lemma OneMoreSeen(seen: string, c: char)
    ensures MarksInARow(seen + [c]) == if IsCombining(c) then MarksInARow(seen) + 1 else 0
    ensures EndsWord(seen + [c]) <==> !IsWhitespace(c)
  {
    assert (seen + [c])[..|seen|] == seen;
  }

  lemma AgreesMore(s: Scan, seen: string, c: char)
    requires Agrees(s, seen) && MarksInARow(seen + [c]) <= 2 && Mapped(c) == Some(c)
    ensures Agrees(Pushed(s, c), seen + [c])
  {
    OneMoreSeen(seen, c);
    OneMoreSeen(s.out, c);
    OneLineMore(seen, c);
    OneLineMore(s.out, c);
    SpaceIsWhite();
    hide OneLine, IsWhitespace, IsCombining, Mapped, MarksInARow, EndsWord;
    if c == ' ' && s.afterSpace {
      assert Pushed(s, c) == s.(marks := 0);
    } else {
      assert Pushed(s, c) == Scan(s.out + [c], c == ' ', MarksInARow(seen + [c]));
    }
  }

  lemma SpaceIsWhite()
    ensures IsWhitespace(' ') && !IsCombining(' ')
  {
  }

  lemma ShownStays(c: char, d: char)
    requires Mapped(c) == Some(d)
    ensures Mapped(d) == Some(d)
  {
  }

  lemma PushedMapped(s: Scan, c: char, d: char)
    requires Mapped(c) == Some(d) && Mapped(d) == Some(d)
    ensures Pushed(s, c) == Pushed(s, d)
  {
  }

  lemma {:induction false} ScanAgrees(text: string)
    requires NoPile(Visible(text))
    ensures Agrees(Scanned(text), Visible(text))
  {
    hide Agrees, NoPile, Mapped, Pushed, Shown, Scanned;
    if text == "" {
      assert Agrees(Scanned(""), "") by { NothingAgrees(); }
    } else {
      var before, c := text[..|text| - 1], text[|text| - 1];
      var seen := Visible(before);
      ShownIsMapped(c);
      FewMarks(Visible(text));
      PrefixHasNoPile(seen, Shown(c));
      ScanAgrees(before);
      assert Scanned(text) == Pushed(Scanned(before), c) by { OneScanned(text); }
      match Mapped(c)
      case None =>
        assert seen + "" == seen;
        NothingPushed(Scanned(before), c);
      case Some(d) =>
        ShownStays(c, d);
        PushedMapped(Scanned(before), c, d);
        AgreesMore(Scanned(before), seen, d);
    }
  }

  lemma NothingAgrees()
    ensures Agrees(Scanned(""), "")
  {
  }

  lemma OneScanned(text: string)
    requires text != ""
    ensures Scanned(text) == Pushed(Scanned(text[..|text| - 1]), text[|text| - 1])
  {
  }

  lemma NothingPushed(s: Scan, c: char)
    requires Mapped(c).None?
    ensures Pushed(s, c) == s
  {
  }

  lemma PrefixHasNoPile(a: string, b: string)
    requires NoPile(a + b)
    ensures NoPile(a)
  {
    assert forall i | 0 <= i < |a| :: (a + b)[i] == a[i];
  }

  // ---- the ends --------------------------------------------------------------------------------

  /** Whitespace in front is no word. */
  lemma {:induction false} WordsBehindSpace(c: char, text: string)
    requires IsWhitespace(c)
    ensures OneLine([c] + text) == OneLine(text) && (text != "" ==> (EndsWord([c] + text) <==> EndsWord(text)))
  {
    hide OneLine, IsWhitespace;
    if text == "" {
      assert [c] + text == "" + [c] == [c];
      OneLineMore("", c);
    } else {
      var before, last := text[..|text| - 1], text[|text| - 1];
      assert before + [last] == text && [c] + before + [last] == [c] + text;
      WordsBehindSpace(c, before);
      OneLineMore(before, last);
      OneLineMore([c] + before, last);
      if before == "" {
        assert [c] + before == "" + [c];
        OneLineMore("", c);
        assert !EndsWord([c] + before);
        NoWords();
      }
    }
  }

  lemma NoWords()
    ensures OneLine("") == ""
  {
  }

  lemma {:induction false} TrimKeepsWords(s: string)
    ensures OneLine(Trim(s)) == OneLine(s)
    decreases |s|
  {
    hide OneLine;
    if s == "" {
    } else if IsWhitespace(s[0]) {
      TrimKeepsWords(s[1..]);
      WordsBehindSpace(s[0], s[1..]);
      assert [s[0]] + s[1..] == s;
    } else if IsWhitespace(s[|s| - 1]) {
      TrimKeepsWords(s[..|s| - 1]);
      OneLineMore(s[..|s| - 1], s[|s| - 1]);
      assert s[..|s| - 1] + [s[|s| - 1]] == s;
    }
  }

  lemma {:induction false} TrimEndKeepsWords(s: string)
    ensures OneLine(TrimEnd(s)) == OneLine(s)
    decreases |s|
  {
    hide OneLine;
    if s != "" && IsWhitespace(s[|s| - 1]) {
      TrimEndKeepsWords(s[..|s| - 1]);
      OneLineMore(s[..|s| - 1], s[|s| - 1]);
      assert s[..|s| - 1] + [s[|s| - 1]] == s;
    }
  }

  /** A text of which at most five hundred characters can be seen, without three marks in a
      row, keeps exactly its words. */
  lemma WordsAreKept(text: string)
    requires NoPile(Visible(text)) && |Visible(text)| <= 500
    ensures Plain(text) == Joined(Words(Visible(text)))
  {
    hide Trim, TrimEnd, Visible, NoPile, Scanned, OneLine;
    ScanAgrees(text);
    var out := Scanned(text).out;
    TrimKeepsWords(out);
    assert |Trim(out)| <= |out| by {
      var i, j := TrimIsSlice(out);
    }
    TrimEndKeepsWords(Trim(out));
    assert OneLine(Visible(text)) == Joined(Words(Visible(text))) by { OneLineIs(Visible(text)); }
  }

  lemma OneLineIs(text: string)
    ensures OneLine(text) == Joined(Words(text))
  {
  }

  /** And only beyond its first five hundred characters is a tidy text cut. */
  lemma LongTextsAreCut(s: string)
    requires AllClean(s) && NoTwoSpaces(s) && NoPile(s) && BareEnds(s) && |s| > 500
    ensures Plain(s) == TrimEnd(s[..500])
  {
    hide Scanned, OneLine, AllClean, NoTwoSpaces, NoPile;
    ScanOfEven(s);
    TrimOfBare(s);
    CutIsEven(s);
    var cut := TrimEnd(s[..500]);
    OneLineOfEven(cut);
  }

  lemma CutIsEven(s: string)
    requires AllClean(s) && NoTwoSpaces(s) && NoPile(s) && BareEnds(s) && |s| > 500
    ensures Even(TrimEnd(s[..500])) && (TrimEnd(s[..500]) != "" ==> !IsWhitespace(TrimEnd(s[..500])[0]))
    ensures TrimEnd(s[..500]) == "" || EndsWord(TrimEnd(s[..500]))
  {
    hide AllClean, NoTwoSpaces, NoPile, IsWhitespace;
    PrefixIsEven(s, 500);
    var cut := TrimEnd(s[..500]);
    PrefixIsEven(s[..500], |cut|);
    assert cut == s[..500][..|cut|];
  }
}
