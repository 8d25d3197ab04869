/** Which byte streams set which titles: the sequences ESC ] 0 ; text and
    ESC ] 2 ; text, each ended by BEL or by ESC \, with anything between them
    that begins no sequence (cmd/shellin/agent_label.go). */
module OscStreams {
  import opened AgentLabels
  import opened OscTitles
  import opened Sequences

  /** The text ends no sequence: it has no BEL, and no ESC in front of a backslash. */
  predicate IsTitleText(text: seq<Byte>) {
    && (forall i :: 0 <= i < |text| ==> text[i] != 0x07)
    && (forall i :: 0 <= i < |text| - 1 ==> text[i] == 0x1b ==> text[i + 1] != 0x5c)
  }

  /** A sequence as it is sent: ESC ] param ; text, and BEL or ESC \ behind it. */
  function Encoded(param: seq<Byte>, text: seq<Byte>, bel: bool): seq<Byte> {
    [0x1b, 0x5d] + param + [0x3b] + text + if bel then [0x07] else [0x1b, 0x5c]
  }

  /** The title such a sequence sets: parameters 0 and 2 set one, unless it is blank. */
  function TitleSet(decode: seq<Byte> -> string, param: seq<Byte>, text: seq<Byte>): seq<string> {
    if (param == [0x30] || param == [0x32]) && NormalizeAgentLabel(decode(text)) != "" then [NormalizeAgentLabel(decode(text))] else []
  }

  lemma HeaderOfEncoded(param: seq<Byte>, text: seq<Byte>, bel: bool)
    requires 0x3b !in param
    ensures var t := Encoded(param, text, bel);
            && StartAt(t, 0) && TitleStart(t) == |param| + 3
            && t[2..|param| + 2] == param && t[|param| + 3..|param| + 3 + |text|] == text
  {
    var t := Encoded(param, text, bel);
    assert t[2..|param| + 2] == param;
    assert forall i :: 0 <= i < |param| ==> t[2..][i] == param[i];
    IndexByteIs(t[2..], SEMICOLON, |param|);
  }

  lemma TextHasNoTerminator(param: seq<Byte>, text: seq<Byte>, bel: bool)
    requires IsTitleText(text)
    ensures NoTerminatorIn(Encoded(param, text, bel), |param| + 3, |param| + 3 + |text|)
  {
    var t, from := Encoded(param, text, bel), |param| + 3;
    forall j | from <= j < from + |text|
      ensures TerminatorWidth(t, j) == 0
    {
      assert t[j] == text[j - from];
      if j + 1 < from + |text| {
        assert t[j + 1] == text[j + 1 - from];
      } else {
        assert t[j + 1] == if bel then 0x07 else 0x1b;
      }
    }
  }

  /** An encoded sequence is complete, and ends where it was ended. */
  lemma EncodedIsSequence(param: seq<Byte>, text: seq<Byte>, bel: bool)
    requires 0x3b !in param && IsTitleText(text)
    ensures var t := Encoded(param, text, bel); IsSequence(t) && TitleEnd(t) == |param| + 3 + |text|
  {
    var t, end := Encoded(param, text, bel), |param| + 3 + |text|;
    HeaderOfEncoded(param, text, bel);
    TextHasNoTerminator(param, text, bel);
    assert t[end] == (if bel then 0x07 else 0x1b) && |t| == end + if bel then 1 else 2;
    assert !bel ==> t[end + 1] == 0x5c;
    FirstTerminatorIs(t, |param| + 3, end);
  }

  /** A single sequence sets the title of its text if its parameter is 0 or 2 and
      the title is not blank; else it sets none. */
  lemma SequenceSetsTitle(decode: seq<Byte> -> string, param: seq<Byte>, text: seq<Byte>, bel: bool)
    requires 0x3b !in param && IsTitleText(text)
    ensures var title := NormalizeAgentLabel(decode(text));
            Titles(decode, Encoded(param, text, bel)) ==
            if (param == [0x30] || param == [0x32]) && title != "" then [title] else []
  {
    EncodedIsSequence(param, text, bel);
    HeaderOfEncoded(param, text, bel);
    SequenceIsScanned(decode, Encoded(param, text, bel));
  }

  // --- streams of sequences ---

  /** A sequence and the bytes in front of it. */
  datatype Item = Item(junk: seq<Byte>, param: seq<Byte>, text: seq<Byte>, bel: bool)

  predicate BeginsNothing(junk: seq<Byte>) {
    forall i :: 0 <= i < |junk| - 1 ==> junk[i] == 0x1b ==> junk[i + 1] != 0x5d
  }

  predicate IsItem(item: Item) {
    BeginsNothing(item.junk) && 0x3b !in item.param && IsTitleText(item.text)
  }

  function Sequence(item: Item): seq<Byte> {
    Encoded(item.param, item.text, item.bel)
  }

  /** The items one after the other, and `tail` behind the last. */
  function Stream(items: seq<Item>, tail: seq<Byte>): seq<Byte> {
    if items == [] then tail else items[0].junk + (Sequence(items[0]) + Stream(items[1..], tail))
  }

  function TitlesSet(decode: seq<Byte> -> string, items: seq<Item>): seq<string> {
    if items == [] then [] else TitleSet(decode, items[0].param, items[0].text) + TitlesSet(decode, items[1..])
  }

  lemma NothingBegins(junk: seq<Byte>)
    requires BeginsNothing(junk)
    ensures !HasSequence(junk)
  {
  }

  /** The junk in front of a sequence is skipped. */
  lemma FirstIsFound(junk: seq<Byte>, t: seq<Byte>)
    requires BeginsNothing(junk) && StartAt(t, 0) && TitleEnd(t) >= 0
    ensures HasSequence(junk + t) && FromFirst(junk + t) == t
  {
    var s := junk + t;
    forall j | 0 <= j < |junk|
      ensures !StartAt(s, j)
    {
      assert s[j] == junk[j] && s[j + 1] == if j + 1 < |junk| then junk[j + 1] else t[0];
    }
    assert s[|junk|] == t[0] && s[|junk| + 1] == t[1];
    StartIsFirst(s, |junk|);
    assert s[|junk|..] == t;
  }

  lemma SequenceInFront(decode: seq<Byte> -> string, t: seq<Byte>, rest: seq<Byte>)
    requires IsSequence(t)
    ensures var s := t + rest;
            && HasSequence(s) && FromFirst(s) == s && StartAt(s, 0) && TitleEnd(s) >= 0
            && Beyond(s) == rest && SequenceLength(s) == |t| && FirstTitles(decode, s) == FirstTitles(decode, t)
  {
    SequenceIsScanned(decode, t);
    FirstSequenceStays(t, rest);
    BeyondStays(t, rest);
    FirstTitleStays(decode, t, rest);
    NothingInFront(rest);
  }

  lemma JunkInFront(decode: seq<Byte> -> string, junk: seq<Byte>, s: seq<Byte>)
    requires BeginsNothing(junk) && HasSequence(s) && FromFirst(s) == s
    ensures HasSequence(junk + s) && FromFirst(junk + s) == s
    ensures Beyond(junk + s) == Beyond(s) && FirstTitles(decode, junk + s) == FirstTitles(decode, s)
  {
    FirstIsFound(junk, s);
  }

  lemma ItemIsScanned(decode: seq<Byte> -> string, item: Item, rest: seq<Byte>)
    requires IsItem(item)
    ensures var s := item.junk + (Sequence(item) + rest);
            && HasSequence(s) && Beyond(s) == rest && SequenceLength(FromFirst(s)) == |Sequence(item)|
            && FirstTitles(decode, s) == TitleSet(decode, item.param, item.text)
  {
    EncodedIsSequence(item.param, item.text, item.bel);
    SequenceIsScanned(decode, Sequence(item));
    SequenceSetsTitle(decode, item.param, item.text, item.bel);
    SequenceInFront(decode, Sequence(item), rest);
    JunkInFront(decode, item.junk, Sequence(item) + rest);
  }

  /** A scan of the stream reports the titles its sequences set, in order. */
  lemma {:induction false} StreamSetsTitles(decode: seq<Byte> -> string, items: seq<Item>, tail: seq<Byte>)
    requires (forall i :: 0 <= i < |items| ==> IsItem(items[i])) && BeginsNothing(tail)
    ensures Titles(decode, Stream(items, tail)) == TitlesSet(decode, items)
  {
    if items == [] {
      NothingBegins(tail);
    } else {
      ItemIsScanned(decode, items[0], Stream(items[1..], tail));
      StreamSetsTitles(decode, items[1..], tail);
    }
  }

  lemma {:induction false} StreamFits(decode: seq<Byte> -> string, items: seq<Item>, tail: seq<Byte>, n: nat)
    requires (forall i :: 0 <= i < |items| ==> IsItem(items[i]) && |Sequence(items[i])| <= n) && BeginsNothing(tail)
    ensures Fits(Stream(items, tail), n)
  {
    if items == [] {
      NothingBegins(tail);
    } else {
      ItemIsScanned(decode, items[0], Stream(items[1..], tail));
      StreamFits(decode, items[1..], tail, n);
    }
  }

  /** Fed in any chunks, a stream whose sequences take at most 4097 bytes each
      reports exactly the titles they set, in order. */
  lemma ParserReportsTitles(decode: seq<Byte> -> string, items: seq<Item>, tail: seq<Byte>, chunks: seq<seq<Byte>>)
    requires forall i :: 0 <= i < |items| ==> IsItem(items[i]) && |Sequence(items[i])| <= 4097
    requires BeginsNothing(tail) && Concat(chunks) == Stream(items, tail)
    ensures Reported(decode, [], chunks) == TitlesSet(decode, items)
  {
    StreamSetsTitles(decode, items, tail);
    StreamFits(decode, items, tail, MAX_PENDING + 1);
    assert [] + Concat(chunks) == Stream(items, tail);
    ChunksDoNotMatter(decode, [], chunks);
  }
}
