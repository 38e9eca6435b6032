/** Foreign text on its way to a terminal: control characters and what cannot be seen are
    dropped, marks do not pile up, and whitespace folds to single spaces. */
module PlainText {
  import opened Wrappers
  import opened Texts

  const NOTE_MAX_CHARS: nat := 500
  const MAX_COMBINING_MARKS: nat := 2

  predicate IsControl(c: char) { c < ' ' || '\U{7f}' <= c <= '\U{9f}' }

  predicate IsInvisible(c: char) {
    || c == '\U{ad}' || c == '\U{34f}' || c == '\U{61c}' || c == '\U{180e}'
    || '\U{200b}' <= c <= '\U{200f}' || '\U{202a}' <= c <= '\U{202e}' || '\U{2060}' <= c <= '\U{2064}'
    || '\U{2066}' <= c <= '\U{2069}' || c == '\U{feff}' || '\U{e0000}' <= c <= '\U{e007f}'
  }

  predicate IsCombining(c: char) {
    || '\U{300}' <= c <= '\U{36f}' || '\U{483}' <= c <= '\U{489}' || '\U{1ab0}' <= c <= '\U{1aff}'
    || '\U{1dc0}' <= c <= '\U{1dff}' || '\U{20d0}' <= c <= '\U{20f0}' || '\U{fe20}' <= c <= '\U{fe2f}'
  }

  /** What becomes of one character. */
  function Mapped(raw: char): Option<char> {
    if raw == '\r' || raw == '\n' || raw == '\U{2028}' || raw == '\U{2029}' then Some(' ')
    else if raw == '\t' then Some('\t')
    else if IsControl(raw) || IsInvisible(raw) then None
    else if IsWhitespace(raw) then Some(' ')
    else Some(raw)
  }

  /** The text so far, whether it ends in a space, and how many marks came in a row. */
  datatype Scan = Scan(out: string, afterSpace: bool, marks: nat)

  function Pushed(s: Scan, raw: char): Scan {
    match Mapped(raw)
    case None => s
    case Some(c) =>
      var marks := if IsCombining(c) then s.marks + 1 else 0;
      if marks > MAX_COMBINING_MARKS || (c == ' ' && s.afterSpace) then s.(marks := marks)
      else Scan(s.out + [c], c == ' ', marks)
  }

  function Scanned(text: string): Scan {
    if text == "" then Scan("", false, 0) else Pushed(Scanned(text[..|text| - 1]), text[|text| - 1])
  }

  function Sanitized(note: string): string {
    var trimmed := Trim(Scanned(note).out);
    TrimEnd(if |trimmed| <= NOTE_MAX_CHARS then trimmed else trimmed[..NOTE_MAX_CHARS])
  }

  method SanitizeNote(note: string) returns (r: string)
    ensures r == Sanitized(note)
  {
    var out, lastWasSpace, marks := "", false, 0;
    for i := 0 to |note|
      invariant Scanned(note[..i]) == Scan(out, lastWasSpace, marks)
    {
      assert note[..i + 1][..i] == note[..i];
      var mapped := Mapped(note[i]);
      if mapped.None? {
        continue;
      }
      var ch := mapped.value;
      if IsCombining(ch) {
        marks := marks + 1;
        if marks > MAX_COMBINING_MARKS {
          continue;
        }
      } else {
        marks := 0;
      }
      if ch == ' ' {
        if lastWasSpace {
          continue;
        }
        lastWasSpace := true;
      } else {
        lastWasSpace := false;
      }
      out := out + [ch];
    }
    assert note[..|note|] == note;
    var trimmed := Trim(out);
    return TrimEnd(if |trimmed| <= NOTE_MAX_CHARS then trimmed else trimmed[..NOTE_MAX_CHARS]);
  }

  predicate EndsWord(text: string) { text != "" && !IsWhitespace(text[|text| - 1]) }

  /** The words between the whitespace. */
  function Words(text: string): (words: seq<string>)
    ensures EndsWord(text) ==> words != []
  {
    if text == "" then []
    else
      var before, c := text[..|text| - 1], text[|text| - 1];
      var words := Words(before);
      if IsWhitespace(c) then words
      else if !EndsWord(before) then words + [[c]]
      else words[..|words| - 1] + [words[|words| - 1] + [c]]
  }

  /** With one space between them. */
  function Joined(words: seq<string>): string {
    if words == [] then ""
    else
      var before, last := words[..|words| - 1], words[|words| - 1];
      if before == [] then last else Joined(before) + " " + last
  }

  function OneLine(text: string): string { Joined(Words(text)) }

  function Plain(text: string): string { OneLine(Sanitized(text)) }

  // ---- what is left of a text ---------------------------------------------------------------

  /** A character that does nothing but stand there; the only whitespace is the space. */
  predicate IsClean(c: char) { !IsControl(c) && !IsInvisible(c) && (IsWhitespace(c) ==> c == ' ') }

  predicate AllClean(s: string) { forall i | 0 <= i < |s| :: IsClean(s[i]) }

  predicate NoTwoSpaces(s: string) { forall i | 0 < i < |s| :: s[i - 1] != ' ' || s[i] != ' ' }

  predicate NoPile(s: string) {
    forall i | 1 < i < |s| :: !IsCombining(s[i - 2]) || !IsCombining(s[i - 1]) || !IsCombining(s[i])
  }

  predicate BareEnds(s: string) { s != "" ==> !IsWhitespace(s[0]) && !IsWhitespace(s[|s| - 1]) }

  /** Clean, with single spaces inside and none at the ends, no three marks in a row, and
      not too long. */
  predicate IsTidy(s: string) {
    AllClean(s) && NoTwoSpaces(s) && NoPile(s) && BareEnds(s) && |s| <= 500
  }

  // ---- scanning ------------------------------------------------------------------------------

  predicate AllScanned(s: string) { forall i | 0 <= i < |s| :: s[i] == '\t' || IsClean(s[i]) }

  /** As scanning leaves it. */
  predicate Smooth(s: string) { AllScanned(s) && NoTwoSpaces(s) && NoPile(s) }

  predicate EndsInMarks(s: string, n: nat) {
    n <= |s| && forall i | |s| - n <= i < |s| :: IsCombining(s[i])
  }

  predicate ScanInv(s: Scan) {
    && Smooth(s.out)
    && (s.afterSpace <==> s.out != "" && s.out[|s.out| - 1] == ' ')
    && (EndsInMarks(s.out, 1) ==> s.marks >= 1)
    && (EndsInMarks(s.out, 2) ==> s.marks >= 2)
  }

  lemma MappedIsScanned(raw: char)
    ensures Mapped(raw).Some? ==> Mapped(raw).value == '\t' || IsClean(Mapped(raw).value)
  {
  }

  lemma SpaceIsPlain()
    ensures IsClean(' ') && !IsCombining(' ') && Mapped(' ') == Some(' ') && IsWhitespace(' ')
  {
  }

  lemma ScanStep(s: Scan, raw: char)
    requires ScanInv(s)
    ensures ScanInv(Pushed(s, raw)) && |Pushed(s, raw).out| <= |s.out| + 1
  {
    MappedIsScanned(raw);
    SpaceIsPlain();
    hide Mapped, IsClean, IsCombining;
    var t := Pushed(s, raw);
    if |t.out| > |s.out| {
      var n := |s.out|;
      assert EndsInMarks(t.out, 1) <==> IsCombining(t.out[n]);
      assert EndsInMarks(t.out, 2) ==> IsCombining(t.out[n - 1]) && EndsInMarks(s.out, 1);
      assert n >= 2 && IsCombining(t.out[n - 2]) && IsCombining(t.out[n - 1]) ==> EndsInMarks(s.out, 2);
    }
  }

  lemma {:induction false} ScanHolds(text: string)
    ensures ScanInv(Scanned(text)) && |Scanned(text).out| <= |text|
  {
    hide Pushed, ScanInv;
    if text == "" {
      assert ScanInv(Scan("", false, 0)) by { ScanStart(); }
    } else {
      ScanHolds(text[..|text| - 1]);
      ScanStep(Scanned(text[..|text| - 1]), text[|text| - 1]);
    }
  }

  lemma ScanStart()
    ensures ScanInv(Scan("", false, 0))
  {
  }

  lemma SliceIsSmooth(s: string, i: nat, j: nat)
    requires Smooth(s) && i <= j <= |s|
    ensures Smooth(s[i..j])
  {
    var t := s[i..j];
    assert forall k | 0 <= k < |t| :: t[k] == s[i + k];
  }

  lemma {:induction false} TrimIsSlice(s: string) returns (i: nat, j: nat)
    ensures i <= j <= |s| && Trim(s) == s[i..j]
    decreases |s|
  {
    if s == [] {
      i, j := 0, 0;
    } else if IsWhitespace(s[0]) {
      i, j := TrimIsSlice(s[1..]);
      i, j := i + 1, j + 1;
    } else if IsWhitespace(s[|s| - 1]) {
      i, j := TrimIsSlice(s[..|s| - 1]);
    } else {
      i, j := 0, |s|;
    }
  }

  lemma SanitizedIsSmooth(note: string)
    ensures Smooth(Sanitized(note)) && |Sanitized(note)| <= NOTE_MAX_CHARS && |Sanitized(note)| <= |note|
  {
    hide Smooth, Scanned, Trim, TrimEnd;
    ScanHolds(note);
    var out := Scanned(note).out;
    var i, j := TrimIsSlice(out);
    SliceIsSmooth(out, i, j);
    var trimmed := Trim(out);
    var capped := if |trimmed| <= NOTE_MAX_CHARS then trimmed else trimmed[..NOTE_MAX_CHARS];
    SliceIsSmooth(trimmed, 0, |capped|);
    assert capped == trimmed[0..|capped|];
    SliceIsSmooth(capped, 0, |TrimEnd(capped)|);
    assert TrimEnd(capped) == capped[0..|TrimEnd(capped)|];
  }

  // ---- folding -------------------------------------------------------------------------------

  lemma JoinedMore(words: seq<string>, last: string)
    ensures Joined(words + [last]) == if words == [] then last else Joined(words) + " " + last
  {
    assert (words + [last])[..|words|] == words;
  }

  lemma {:induction false} WordsAreNotEmpty(text: string)
    ensures forall i | 0 <= i < |Words(text)| :: Words(text)[i] != ""
  {
    if text != "" {
      WordsAreNotEmpty(text[..|text| - 1]);
    }
  }

  lemma JoinedIsEmpty(words: seq<string>)
    requires forall i | 0 <= i < |words| :: words[i] != ""
    ensures Joined(words) == "" <==> words == []
  {
  }

  /** One character more. */
  lemma OneLineMore(text: string, c: char)
    ensures OneLine(text + [c]) ==
      if IsWhitespace(c) then OneLine(text)
      else if EndsWord(text) then OneLine(text) + [c]
      else if OneLine(text) == "" then [c]
      else OneLine(text) + " " + [c]
  {
    hide IsWhitespace, Joined;
    assert (text + [c])[..|text|] == text;
    var words := Words(text);
    WordsAreNotEmpty(text);
    JoinedIsEmpty(words);
    if !IsWhitespace(c) {
      if EndsWord(text) {
        var front, last := words[..|words| - 1], words[|words| - 1];
        assert words == front + [last];
        JoinedMore(front, last);
        JoinedMore(front, last + [c]);
        assert Joined(front) + " " + (last + [c]) == Joined(front) + " " + last + [c];
      } else {
        JoinedMore(words, [c]);
      }
    }
  }

  /** How the folded text follows the text it comes from. */
  predicate Follows(line: string, text: string) {
    && |line| <= |text| && AllClean(line) && NoTwoSpaces(line) && NoPile(line) && BareEnds(line)
    && (EndsWord(text) ==> line != "" && line[|line| - 1] == text[|text| - 1])
    && (text != "" && !EndsWord(text) ==> |line| < |text|)
    && (EndsWord(text) && |line| > 1 && line[|line| - 2] != ' ' ==>
          |text| > 1 && text[|text| - 2] == line[|line| - 2])
  }

  lemma FollowsMore(line: string, text: string, c: char)
    requires Smooth(text + [c]) && Follows(line, text) && !IsWhitespace(c)
    ensures Follows(if EndsWord(text) then line + [c] else if line == "" then [c] else line + " " + [c], text + [c])
  {
    var more := text + [c];
    assert more[|text|] == c && forall i | 0 <= i < |text| :: more[i] == text[i];
    assert !IsCombining(' ');
    if EndsWord(text) {
      JoinsWord(line, text, c);
    } else if line != "" {
      var next := line + " " + [c];
      assert next[|line|] == ' ' && next[|line| + 1] == c && forall i | 0 <= i < |line| :: next[i] == line[i];
    }
  }

  lemma JoinsWord(line: string, text: string, c: char)
    requires Smooth(text + [c]) && Follows(line, text) && !IsWhitespace(c) && EndsWord(text)
    ensures Follows(line + [c], text + [c])
  {
    var more, next, n := text + [c], line + [c], |line|;
    assert more[|text|] == c && more[|text| - 1] == text[|text| - 1] == line[n - 1];
    assert next[n] == c && forall i | 0 <= i < n :: next[i] == line[i];
    if n > 1 && line[n - 2] != ' ' {
      assert more[|text| - 2] == line[n - 2];
    }
    assert !IsCombining(' ');
    assert NoPile(next);
  }

  lemma {:induction false} OneLineFollows(text: string)
    requires Smooth(text)
    ensures Follows(OneLine(text), text)
  {
    hide Smooth, OneLine, Follows;
    if text == "" {
      assert Follows(OneLine(""), "") by { NothingFollows(); }
    } else {
      var before, c := text[..|text| - 1], text[|text| - 1];
      assert before + [c] == text;
      SliceIsSmooth(text, 0, |text| - 1);
      assert text[0..|text| - 1] == before;
      OneLineFollows(before);
      OneLineMore(before, c);
      if IsWhitespace(c) {
        SpaceFollows(OneLine(before), before, c);
      } else {
        FollowsMore(OneLine(before), before, c);
      }
    }
  }

  lemma NothingFollows()
    ensures Follows(OneLine(""), "")
  {
  }

  lemma SpaceFollows(line: string, text: string, c: char)
    requires Follows(line, text) && IsWhitespace(c)
    ensures Follows(line, text + [c])
  {
  }

  /** Whatever the text was, what is left of it is tidy, and no longer. */
  lemma PlainIsTidy(text: string)
    ensures IsTidy(Plain(text)) && |Plain(text)| <= |text|
  {
    hide Sanitized, OneLine, Smooth;
    SanitizedIsSmooth(text);
    OneLineFollows(Sanitized(text));
  }

  // ---- what is tidy stays -----------------------------------------------------------------------

  predicate Even(s: string) { AllClean(s) && NoTwoSpaces(s) && NoPile(s) }

  function MarksAtEnd(s: string): nat {
    if EndsInMarks(s, 2) then 2 else if EndsInMarks(s, 1) then 1 else 0
  }

  /** The scan of a text that loses nothing. */
  function Lossless(s: string): Scan { Scan(s, s != "" && s[|s| - 1] == ' ', MarksAtEnd(s)) }

  lemma LosslessMore(s: string, c: char)
    requires Even(s + [c])
    ensures Pushed(Lossless(s), c) == Lossless(s + [c])
  {
    var t, n := s + [c], |s|;
    assert t[n] == c && forall i | 0 <= i < n :: t[i] == s[i];
    assert Mapped(c) == Some(c);
    assert EndsInMarks(t, 1) <==> IsCombining(c);
    assert EndsInMarks(t, 2) <==> IsCombining(c) && EndsInMarks(s, 1) by {
      if n > 0 { assert EndsInMarks(s, 1) <==> IsCombining(s[n - 1]); }
    }
    if EndsInMarks(s, 2) {
      assert IsCombining(t[n - 2]) && IsCombining(t[n - 1]);
    }
  }

  lemma PrefixIsEven(s: string, n: nat)
    requires Even(s) && n <= |s|
    ensures Even(s[..n])
  {
    assert forall i | 0 <= i < n :: s[..n][i] == s[i];
  }

  /** Behind a text without loss, more text without loss. */
  lemma {:induction false} ScanGoesOn(text: string, s: string, more: string)
    requires Scanned(text) == Lossless(s) && Even(s + more)
    ensures Scanned(text + more) == Lossless(s + more)
    decreases |more|
  {
    hide Even, Lossless, Pushed;
    if more == "" {
      assert text + more == text && s + more == s;
    } else {
      var before, c := more[..|more| - 1], more[|more| - 1];
      assert (s + more)[..|s + more| - 1] == s + before && s + before + [c] == s + more;
      PrefixIsEven(s + more, |s + more| - 1);
      ScanGoesOn(text, s, before);
      LosslessMore(s + before, c);
      assert (text + more)[..|text + more| - 1] == text + before;
    }
  }

  lemma ScanOfEven(s: string)
    requires Even(s)
    ensures Scanned(s) == Lossless(s)
  {
    assert "" + s == s;
    ScanGoesOn("", "", s);
  }

  lemma TrimOfBare(s: string)
    requires BareEnds(s)
    ensures Trim(s) == s && TrimEnd(s) == s
  {
  }

  /** Folding does nothing to single spaces. */
  lemma {:induction false} OneLineOfEven(s: string)
    requires Even(s) && (s != "" ==> !IsWhitespace(s[0]))
    ensures OneLine(s) == if s == "" || EndsWord(s) then s else s[..|s| - 1]
  {
    hide OneLine, IsWhitespace;
    if s == "" {
      assert OneLine("") == "" by { NothingFollows(); }
    } else {
      var before, c := s[..|s| - 1], s[|s| - 1];
      assert before + [c] == s;
      PrefixIsEven(s, |s| - 1);
      OneLineOfEven(before);
      OneLineMore(before, c);
      if !IsWhitespace(c) && before != "" && !EndsWord(before) {
        assert IsClean(s[|s| - 2]) && before[|before| - 1] == s[|s| - 2] == ' ';
        assert before == before[..|before| - 1] + " ";
        assert |before| > 1;
      }
    }
  }

  /** Exactly the tidy texts are left as they are; so cleaning twice is cleaning once. */
  lemma PlainIsFixedOnTidy(text: string)
    ensures Plain(text) == text <==> IsTidy(text)
    ensures Plain(Plain(text)) == Plain(text)
  {
    PlainIsTidy(text);
    TidyStays(Plain(text));
    if IsTidy(text) {
      TidyStays(text);
    }
  }

  lemma TidyStays(text: string)
    requires IsTidy(text)
    ensures Plain(text) == text
  {
    hide Scanned, OneLine, AllClean, NoTwoSpaces, NoPile;
    ScanOfEven(text);
    TrimOfBare(text);
    OneLineOfEven(text);
  }

  /** A run of spaces between two tidy texts folds to one. */
  lemma PlainOfTwo(a: string, gap: string, b: string)
    requires IsTidy(a) && IsTidy(b) && a != "" && b != ""
    requires gap != "" && forall i | 0 <= i < |gap| :: gap[i] == ' '
    requires |a| + |gap| + |b| <= NOTE_MAX_CHARS
    ensures Plain(a + gap + b) == a + " " + b && IsTidy(a + " " + b)
  {
    hide Scanned, OneLine, Plain, Pushed;
    var s := a + " " + b;
    TwoAreTidy(a, b);
    ScanOfEven(a);
    ScanOfGap(a, gap);
    ScanGoesOn(a + gap, a + " ", b);
    TidyStays(s);
    ScanOfEven(s);
    SameScanSamePlain(a + gap + b, s);
  }

  lemma TwoAreTidy(a: string, b: string)
    requires IsTidy(a) && IsTidy(b) && a != "" && b != "" && |a| + 1 + |b| <= NOTE_MAX_CHARS
    ensures IsTidy(a + " " + b)
  {
    SpaceIsPlain();
    hide IsClean, IsCombining;
    var s := a + " " + b;
    forall i | 0 < i < |s|
      ensures s[i - 1] != ' ' || s[i] != ' '
    {
      At(a, b, i);
      At(a, b, i - 1);
    }
    forall i | 1 < i < |s|
      ensures !IsCombining(s[i - 2]) || !IsCombining(s[i - 1]) || !IsCombining(s[i])
    {
      At(a, b, i);
      At(a, b, i - 1);
      At(a, b, i - 2);
    }
  }

  lemma At(a: string, b: string, i: nat)
    requires i <= |a| + |b|
    ensures (a + " " + b)[i] == if i < |a| then a[i] else if i == |a| then ' ' else b[i - |a| - 1]
  {
  }

  lemma {:induction false} ScanOfGap(a: string, gap: string)
    requires Scanned(a) == Lossless(a) && IsTidy(a) && a != ""
    requires gap != "" && forall i | 0 <= i < |gap| :: gap[i] == ' '
    ensures Scanned(a + gap) == Lossless(a + " ")
    decreases |gap|
  {
    SpaceIsPlain();
    hide IsClean, IsCombining, Mapped, IsWhitespace;
    var before := gap[..|gap| - 1];
    assert (a + gap)[..|a + gap| - 1] == a + before;
    assert (a + " ")[|a|] == ' ' && !EndsInMarks(a + " ", 1);
    if before == "" {
      assert a + before == a;
    } else {
      ScanOfGap(a, before);
    }
  }

  lemma SameScanSamePlain(x: string, y: string)
    requires Scanned(x).out == Scanned(y).out
    ensures Plain(x) == Plain(y)
  {
  }
}
