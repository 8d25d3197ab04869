/** The label shown for an agent (cmd/shellin/agent_label.go). */
module AgentLabels {
  import opened Text

  const MAX_LABEL := 120

  predicate IsControl(c: char) {
    c < ' ' || c == '\U{7f}'
  }

  /** Line breaks and tabs become spaces; other control characters disappear. */
  function Cleaned(raw: string): string {
    if raw == [] then []
    else (if raw[0] == '\n' || raw[0] == '\r' || raw[0] == '\t' then [' ']
          else if IsControl(raw[0]) then []
          else [raw[0]]) + Cleaned(raw[1..])
  }

  /** The length of the word `s` begins with. */
  function WordLength(s: string): (n: nat)
    ensures n <= |s|
    ensures forall i :: 0 <= i < n ==> !IsSpace(s[i])
    ensures n < |s| ==> IsSpace(s[n])
  {
    if s == [] || IsSpace(s[0]) then 0 else 1 + WordLength(s[1..])
  }

  /** The words of `s`, separated by runs of white space. */
  function Fields(s: string): seq<string> {
    if s == [] then []
    else if IsSpace(s[0]) then Fields(s[1..])
    else [s[..WordLength(s)]] + Fields(s[WordLength(s)..])
  }

  function Join(words: seq<string>): string {
    if words == [] then "" else if |words| == 1 then words[0] else words[0] + " " + Join(words[1..])
  }

  function NormalizeAgentLabel(raw: string): string {
    var fields := Fields(Trim(Cleaned(raw)));
    if |fields| == 0 then ""
    else
      var normalized := Join(fields);
      if |normalized| > MAX_LABEL then normalized[..MAX_LABEL] else normalized
  }

  /** Keeps the label last set; a blank label or the same one changes nothing. */
  class AgentLabelTracker {
    var value: string

    constructor (initial: string)
      ensures value == NormalizeAgentLabel(initial)
    {
      value := NormalizeAgentLabel(initial);
    }

    method Set(next: string) returns (changed: bool)
      modifies this
      ensures changed <==> value != old(value)
      ensures value == if NormalizeAgentLabel(next) == "" then old(value) else NormalizeAgentLabel(next)
    {
      var normalized := NormalizeAgentLabel(next);
      if normalized == "" || normalized == value {
        return false;
      }
      value := normalized;
      return true;
    }
  }

  // --- normalizing a label again ---

  predicate IsWord(w: string) {
    w != [] && forall i :: 0 <= i < |w| ==> !IsSpace(w[i]) && !IsControl(w[i])
  }

  predicate AreWords(words: seq<string>) {
    forall i :: 0 <= i < |words| ==> IsWord(words[i])
  }

  predicate NoControls(s: string) {
    forall i :: 0 <= i < |s| ==> !IsControl(s[i])
  }

  lemma {:induction false} CleanedHasNoControls(raw: string)
    ensures NoControls(Cleaned(raw))
  {
    if raw != [] {
      CleanedHasNoControls(raw[1..]);
    }
  }

  lemma {:induction false} CleanedFixesClean(s: string)
    requires NoControls(s)
    ensures Cleaned(s) == s
  {
    if s != [] {
      assert !IsControl(s[0]);
      CleanedFixesClean(s[1..]);
    }
  }

  lemma {:induction false} FieldsAreWords(s: string)
    requires NoControls(s)
    ensures AreWords(Fields(s))
    decreases |s|
  {
    if s != [] {
      FieldsAreWords(if IsSpace(s[0]) then s[1..] else s[WordLength(s)..]);
    }
  }

  lemma FieldsStep(w: string, after: string)
    requires IsWord(w) && (after == [] || IsSpace(after[0]))
    ensures Fields(w + after) == [w] + Fields(after)
  {
    var s := w + after;
    assert forall i :: 0 <= i < |w| ==> s[i] == w[i];
    WordEndsAt(s, |w|);
    assert s[..|w|] == w && s[|w|..] == after;
  }

  /** The words of a label are those it is joined from, with or without a trailing space. */
  lemma {:induction false} FieldsOfJoin(words: seq<string>, tail: string)
    requires AreWords(words) && tail in {"", " "}
    ensures Fields(Join(words) + tail) == words
    decreases |words|
  {
    assert Fields("") == [] && Fields(" ") == [];
    if words == [] {
      assert "" + tail == tail;
    } else if |words| == 1 {
      FieldsStep(words[0], tail);
    } else {
      var rest := Join(words[1..]) + tail;
      assert Join(words) + tail == words[0] + (" " + rest);
      assert (" " + rest)[1..] == rest;
      FieldsStep(words[0], " " + rest);
      FieldsOfJoin(words[1..], tail);
    }
  }

  lemma {:induction false} WordEndsAt(s: string, n: nat)
    requires n <= |s| && (forall i :: 0 <= i < n ==> !IsSpace(s[i])) && (n < |s| ==> IsSpace(s[n]))
    ensures WordLength(s) == n
  {
    if n > 0 {
      WordEndsAt(s[1..], n - 1);
    }
  }

  lemma {:induction false} JoinIsClean(words: seq<string>)
    requires AreWords(words)
    ensures NoControls(Join(words))
    ensures words != [] ==> Join(words) != [] && !IsSpace(Join(words)[0]) && !IsSpace(Join(words)[|Join(words)| - 1])
  {
    if words != [] {
      assert IsWord(words[0]);
      JoinIsClean(words[1..]);
    }
  }

  /** Cutting a joined label leaves joined words, possibly followed by one space. */
  lemma {:induction false} PrefixOfJoin(words: seq<string>, n: nat) returns (kept: seq<string>)
    requires AreWords(words) && 0 < n <= |Join(words)|
    ensures AreWords(kept) && kept != []
    ensures Join(words)[..n] in {Join(kept), Join(kept) + " "}
    decreases |words|
  {
    var w := words[0];
    if n <= |w| {
      kept := [w[..n]];
      assert Join(words)[..n] == w[..n];
    } else if n == |w| + 1 {
      kept := [w];
      assert Join(words)[..n] == w + " ";
    } else {
      var more := PrefixOfJoin(words[1..], n - |w| - 1);
      kept := [w] + more;
      assert kept[1..] == more;
      var rest := Join(words[1..]);
      assert Join(words)[..n] == w + " " + rest[..n - |w| - 1];
      assert w + " " + (Join(more) + " ") == (w + " " + Join(more)) + " ";
    }
  }

  /** Normalizing joined words, with or without a trailing space, joins them again. */
  lemma NormalizeJoined(words: seq<string>, tail: string)
    requires AreWords(words) && words != [] && tail in {"", " "} && |Join(words) + tail| <= MAX_LABEL
    ensures NormalizeAgentLabel(Join(words) + tail) == Join(words)
  {
    var s := Join(words) + tail;
    JoinIsClean(words);
    assert NoControls(s);
    CleanedFixesClean(s);
    assert s[0] == Join(words)[0] && TrimLeft(s) == s;
    assert TrimRight(Join(words)) == Join(words);
    if tail == " " {
      assert s[..|s| - 1] == Join(words);
    } else {
      assert s == Join(words);
    }
    assert Join(words) + "" == Join(words);
    FieldsOfJoin(words, "");
  }

  /** A label is words joined by single spaces, with a trailing space only where it was cut. */
  lemma LabelShape(raw: string) returns (words: seq<string>, tail: string)
    ensures AreWords(words) && tail in {"", " "} && (words == [] ==> tail == "")
    ensures NormalizeAgentLabel(raw) == Join(words) + tail && |Join(words) + tail| <= MAX_LABEL
    ensures tail == " " ==> |Join(words) + tail| == MAX_LABEL
  {
    var cleaned := Cleaned(raw);
    CleanedHasNoControls(raw);
    var i := TrimLeftDropsPrefix(cleaned);
    var k := TrimRightDropsSuffix(TrimLeft(cleaned));
    FieldsAreWords(Trim(cleaned));
    words, tail := Fields(Trim(cleaned)), "";
    assert Join(words) + "" == Join(words);
    if |Join(words)| > MAX_LABEL {
      var kept := PrefixOfJoin(words, MAX_LABEL);
      tail := if Join(words)[..MAX_LABEL] == Join(kept) then "" else " ";
      assert Join(kept) + "" == Join(kept);
      words := kept;
    }
  }

  lemma BlankStaysBlank()
    ensures NormalizeAgentLabel("") == ""
  {
  }

  predicate EndsInSpace(s: string) {
    s != [] && s[|s| - 1] == ' '
  }

  /** The label before it is cut. */
  function Uncut(raw: string): string {
    Join(Fields(Trim(Cleaned(raw))))
  }

  /** A label ends in a space exactly when it is cut, and cut right after a word. */
  lemma EndsInSpaceIffCutThere(raw: string)
    ensures EndsInSpace(NormalizeAgentLabel(raw)) <==> |Uncut(raw)| > MAX_LABEL && Uncut(raw)[MAX_LABEL - 1] == ' '
  {
    var cleaned := Cleaned(raw);
    CleanedHasNoControls(raw);
    var i := TrimLeftDropsPrefix(cleaned);
    var k := TrimRightDropsSuffix(TrimLeft(cleaned));
    FieldsAreWords(Trim(cleaned));
    var words := Fields(Trim(cleaned));
    if words != [] {
      JoinIsClean(words);
    }
  }

  /** Normalizing a label again changes it exactly when the label was longer than
      120 characters and its 120th is a space, which the cut then left at the end;
      the second time it is settled. */
  lemma NormalizeTwice(raw: string)
    ensures var once := NormalizeAgentLabel(raw);
            var twice := NormalizeAgentLabel(once);
            && (twice != once <==> |Uncut(raw)| > MAX_LABEL && Uncut(raw)[MAX_LABEL - 1] == ' ')
            && (twice != once ==> once == twice + " " && |once| == MAX_LABEL)
            && NormalizeAgentLabel(twice) == twice
  {
    EndsInSpaceIffCutThere(raw);
    var words, tail := LabelShape(raw);
    assert Join(words) + "" == Join(words);
    if words != [] {
      var once, twice := Join(words) + tail, Join(words);
      NormalizeJoined(words, tail);
      NormalizeJoined(words, "");
      JoinIsClean(words);
      assert EndsInSpace(once) <==> tail == " ";
    } else {
      BlankStaysBlank();
    }
  }

  /** A label that is cut right after a word. */
  lemma NormalizeIsNotIdempotent()
    ensures var raw := seq(119, i => 'a') + " b"; NormalizeAgentLabel(NormalizeAgentLabel(raw)) != NormalizeAgentLabel(raw)
  {
    var word := seq(119, i => 'a');
    var raw := word + " b";
    var words := [word, "b"];
    assert Join(words) == raw by {
      assert words[1..] == ["b"];
    }
    JoinIsClean(words);
    CleanedFixesClean(raw);
    assert raw + "" == raw;
    FieldsOfJoin(words, "");
    assert raw[..MAX_LABEL] == word + " ";
    NormalizeTwice(raw);
  }
}
