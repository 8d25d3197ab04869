/** What a label is made of: the words of the text, however line breaks, tabs and
    control characters are spread over it (cmd/shellin/agent_label.go). */
module LabelWords {
  import opened AgentLabels
  import opened Sequences
  import opened Text

  /** A character that separates words: a line break, a tab, or any other white space that is no control character. */
  predicate Separates(c: char) {
    c == '\n' || c == '\r' || c == '\t' || (IsSpace(c) && c >= ' ')
  }

  /** Any other control character leaves no trace. */
  predicate Vanishes(c: char) {
    (c < ' ' || c == '\U{7f}') && c != '\n' && c != '\r' && c != '\t'
  }

  /** What remains of a piece of text without separators. */
  function Visible(piece: string): string {
    if piece == "" then ""
    else if Vanishes(piece[0]) then Visible(piece[1..])
    else [piece[0]] + Visible(piece[1..])
  }

  predicate IsPiece(piece: string) {
    (forall i :: 0 <= i < |piece| ==> !Separates(piece[i])) && Visible(piece) != ""
  }

  predicate IsGap(gap: string) {
    forall i :: 0 <= i < |gap| ==> Separates(gap[i]) || Vanishes(gap[i])
  }

  predicate SeparatesSomewhere(gap: string) {
    exists i :: 0 <= i < |gap| && Separates(gap[i])
  }

  /** Pieces of text with a gap in front of each. */
  function Laid(gaps: seq<string>, pieces: seq<string>): string
    requires |gaps| == |pieces|
  {
    if gaps == [] then "" else gaps[0] + (pieces[0] + Laid(gaps[1..], pieces[1..]))
  }

  function VisibleAll(pieces: seq<string>): seq<string> {
    if pieces == [] then [] else [Visible(pieces[0])] + VisibleAll(pieces[1..])
  }

  lemma {:induction false} CleanedOfBoth(a: string, b: string)
    ensures Cleaned(a + b) == Cleaned(a) + Cleaned(b)
  {
    if a == "" {
      assert a + b == b;
    } else {
      assert (a + b)[1..] == a[1..] + b;
      CleanedOfBoth(a[1..], b);
    }
  }

  lemma {:induction false} CleanedGap(gap: string)
    requires IsGap(gap)
    ensures AllSpace(Cleaned(gap)) && (SeparatesSomewhere(gap) ==> Cleaned(gap) != "")
  {
    if gap != "" {
      CleanedGap(gap[1..]);
      if !Separates(gap[0]) && SeparatesSomewhere(gap) {
        var i :| 0 <= i < |gap| && Separates(gap[i]);
        assert gap[1..][i - 1] == gap[i];
      }
    }
  }

  lemma {:induction false} CleanedPiece(piece: string)
    requires forall i :: 0 <= i < |piece| ==> !Separates(piece[i])
    ensures Cleaned(piece) == Visible(piece)
    ensures forall i :: 0 <= i < |Visible(piece)| ==> !IsSpace(Visible(piece)[i]) && !IsControl(Visible(piece)[i])
  {
    if piece != "" {
      CleanedPiece(piece[1..]);
    }
  }

  lemma {:induction false} FieldsSkipSpace(before: string, s: string)
    requires AllSpace(before)
    ensures Fields(before + s) == Fields(s)
  {
    if before == "" {
      assert before + s == s;
    } else {
      assert (before + s)[1..] == before[1..] + s;
      FieldsSkipSpace(before[1..], s);
    }
  }

  lemma {:induction false} FieldsIgnoreTrailing(s: string, after: string)
    requires AllSpace(after)
    ensures Fields(s + after) == Fields(s)
    decreases |s|
  {
    if s == "" {
      assert s + after == after + "";
      FieldsSkipSpace(after, "");
    } else if IsSpace(s[0]) {
      assert (s + after)[1..] == s[1..] + after;
      FieldsIgnoreTrailing(s[1..], after);
    } else {
      var n := WordLength(s);
      WordEndsAt(s + after, n);
      assert (s + after)[..n] == s[..n] && (s + after)[n..] == s[n..] + after;
      FieldsIgnoreTrailing(s[n..], after);
    }
  }

  lemma {:induction false} FieldsOfTrimmedLeft(s: string)
    ensures Fields(TrimLeft(s)) == Fields(s)
  {
    if s != "" && IsSpace(s[0]) {
      FieldsOfTrimmedLeft(s[1..]);
    }
  }

  lemma {:induction false} FieldsOfTrimmedRight(s: string)
    ensures Fields(TrimRight(s)) == Fields(s)
  {
    if s != "" && IsSpace(s[|s| - 1]) {
      FieldsOfTrimmedRight(s[..|s| - 1]);
      FieldsIgnoreTrailing(s[..|s| - 1], [s[|s| - 1]]);
      EndsInLast(s);
    }
  }

  lemma FieldsOfTrimmed(s: string)
    ensures Fields(Trim(s)) == Fields(s)
  {
    FieldsOfTrimmedLeft(s);
    FieldsOfTrimmedRight(TrimLeft(s));
  }

  predicate AllGaps(gaps: seq<string>) {
    forall i :: 0 <= i < |gaps| ==> IsGap(gaps[i]) && (i > 0 ==> SeparatesSomewhere(gaps[i]))
  }

  predicate AllPieces(pieces: seq<string>) {
    forall i :: 0 <= i < |pieces| ==> IsPiece(pieces[i])
  }

  lemma LaidBeginsWithSpace(gaps: seq<string>, pieces: seq<string>)
    requires |gaps| == |pieces| && gaps != [] && IsGap(gaps[0]) && SeparatesSomewhere(gaps[0])
    ensures var s := Cleaned(Laid(gaps, pieces)); s != "" && IsSpace(s[0])
  {
    CleanedGap(gaps[0]);
    CleanedOfBoth(gaps[0], pieces[0] + Laid(gaps[1..], pieces[1..]));
  }

  /** The first word of a text behind a gap. */
  lemma FirstField(gap: string, piece: string, rest: string)
    requires IsGap(gap) && IsPiece(piece) && (Cleaned(rest) == "" || IsSpace(Cleaned(rest)[0]))
    ensures Fields(Cleaned(gap + (piece + rest))) == [Visible(piece)] + Fields(Cleaned(rest)) && IsWord(Visible(piece))
  {
    CleanedOfBoth(gap, piece + rest);
    CleanedOfBoth(piece, rest);
    CleanedGap(gap);
    CleanedPiece(piece);
    FieldsSkipSpace(Cleaned(gap), Visible(piece) + Cleaned(rest));
    FieldsStep(Visible(piece), Cleaned(rest));
  }

  lemma {:induction false} FieldsOfLaid(gaps: seq<string>, pieces: seq<string>)
    requires |gaps| == |pieces| && AllGaps(gaps) && AllPieces(pieces)
    ensures Fields(Cleaned(Laid(gaps, pieces))) == VisibleAll(pieces) && AreWords(VisibleAll(pieces))
  {
    if gaps != [] {
      if gaps[1..] != [] {
        LaidBeginsWithSpace(gaps[1..], pieces[1..]);
      }
      FirstField(gaps[0], pieces[0], Laid(gaps[1..], pieces[1..]));
      FieldsOfLaid(gaps[1..], pieces[1..]);
    }
  }

  /** However the words of a text are separated, by line breaks, tabs, other white
      space or any mixture, and whatever other control characters stand within or
      between them: the label is the words with one space between each two, cut
      after 120 characters. */
  lemma LabelIsWords(gaps: seq<string>, pieces: seq<string>, last: string)
    requires |gaps| == |pieces| && AllGaps(gaps) && AllPieces(pieces) && IsGap(last)
    ensures var joined := Join(VisibleAll(pieces));
            NormalizeAgentLabel(Laid(gaps, pieces) + last) == if |joined| <= 120 then joined else joined[..120]
  {
    CleanedOfBoth(Laid(gaps, pieces), last);
    CleanedGap(last);
    FieldsOfTrimmed(Cleaned(Laid(gaps, pieces) + last));
    FieldsIgnoreTrailing(Cleaned(Laid(gaps, pieces)), Cleaned(last));
    FieldsOfLaid(gaps, pieces);
  }

  /** Two words with a line break or tab between them become two words with a space between them. */
  lemma BreakBecomesSpace(a: string, b: string, c: char)
    requires IsWord(a) && IsWord(b) && c in {'\n', '\r', '\t'} && |a| + 1 + |b| <= 120
    ensures NormalizeAgentLabel(a + [c] + b) == a + " " + b
  {
    var gaps, pieces := ["", [c]], [a, b];
    VisibleWord(a);
    VisibleWord(b);
    assert Separates([c][0]);
    assert gaps[1..] == [[c]] && pieces[1..] == [b];
    LaidOne([c], b);
    assert Laid(gaps, pieces) + "" == a + [c] + b;
    assert Join([a, b]) == a + " " + b && [a, b][1..] == [b];
    LabelIsWords(gaps, pieces, "");
  }

  lemma LaidOne(gap: string, piece: string)
    ensures Laid([gap], [piece]) == gap + piece && VisibleAll([piece]) == [Visible(piece)]
  {
    assert [gap][1..] == [] && [piece][1..] == [];
    assert piece + "" == piece;
  }

  lemma {:induction false} VisibleWord(w: string)
    requires forall i :: 0 <= i < |w| ==> !IsSpace(w[i]) && !IsControl(w[i])
    ensures Visible(w) == w && forall i :: 0 <= i < |w| ==> !Separates(w[i])
  {
    if w != "" {
      VisibleWord(w[1..]);
    }
  }
}
