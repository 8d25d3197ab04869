/** Picking terminal titles out of the output stream (cmd/shellin/agent_label.go).

    A title sequence is ESC ] param ; title, ended by BEL or by ESC \.  The
    parser is fed the stream in arbitrary chunks and keeps a bounded rest. */
module OscTitles {
  import opened AgentLabels
  import opened Sequences

  type Byte = b: int | 0 <= b < 256

  const BEL: Byte := 0x07
  const ESC: Byte := 0x1b
  const BRACKET: Byte := 0x5d
  const SEMICOLON: Byte := 0x3b
  const BACKSLASH: Byte := 0x5c
  const MAX_PENDING := 4096

  // --- what the parser looks for ---

  predicate StartAt(s: seq<Byte>, i: int) {
    0 <= i && i + 1 < |s| && s[i] == ESC && s[i + 1] == BRACKET
  }

  /** The first ESC ], or -1. */
  function IndexStart(s: seq<Byte>): (r: int)
    ensures -1 <= r < |s|
    ensures r >= 0 ==> StartAt(s, r)
  {
    if |s| < 2 then -1
    else if StartAt(s, 0) then 0
    else var r := IndexStart(s[1..]); if r < 0 then -1 else r + 1
  }

  ghost predicate NoStartBefore(s: seq<Byte>, k: int) {
    forall j :: 0 <= j < k ==> !StartAt(s, j)
  }

  lemma {:induction false} IndexStartIsFirst(s: seq<Byte>)
    ensures NoStartBefore(s, if IndexStart(s) >= 0 then IndexStart(s) else |s|)
  {
    if |s| >= 2 && !StartAt(s, 0) {
      IndexStartIsFirst(s[1..]);
      forall j | 1 <= j
        ensures StartAt(s, j) == StartAt(s[1..], j - 1)
      {
      }
    }
  }

  function IndexByte(s: seq<Byte>, b: Byte): (r: int)
    ensures -1 <= r < |s|
    ensures r >= 0 ==> s[r] == b
  {
    if s == [] then -1
    else if s[0] == b then 0
    else var r := IndexByte(s[1..], b); if r < 0 then -1 else r + 1
  }

  ghost predicate NoByteBefore(s: seq<Byte>, b: Byte, k: int)
    requires k <= |s|
  {
    forall j :: 0 <= j < k ==> s[j] != b
  }

  lemma {:induction false} IndexByteIsFirst(s: seq<Byte>, b: Byte)
    ensures NoByteBefore(s, b, if IndexByte(s, b) >= 0 then IndexByte(s, b) else |s|)
  {
    if s != [] && s[0] != b {
      IndexByteIsFirst(s[1..], b);
      assert forall j :: 1 <= j < |s| ==> s[j] == s[1..][j - 1];
    }
  }

  lemma IndexByteIs(s: seq<Byte>, b: Byte, i: nat)
    requires i < |s| && s[i] == b && NoByteBefore(s, b, i)
    ensures IndexByte(s, b) == i
  {
    IndexByteIsFirst(s, b);
  }

  /** How many bytes a terminator at `i` takes; 0 if there is none. */
  function TerminatorWidth(s: seq<Byte>, i: int): nat
    requires 0 <= i < |s|
  {
    if s[i] == BEL then 1
    else if s[i] == ESC && i + 1 < |s| && s[i + 1] == BACKSLASH then 2
    else 0
  }

  ghost predicate NoTerminatorIn(s: seq<Byte>, from: int, to: int) {
    forall j :: 0 <= j < |s| && from <= j < to ==> TerminatorWidth(s, j) == 0
  }

  function FirstTerminator(s: seq<Byte>, from: nat): (r: int)
    requires from <= |s|
    ensures r == -1 || from <= r < |s|
    ensures r >= 0 ==> 1 <= TerminatorWidth(s, r) <= |s| - r
    decreases |s| - from
  {
    if from == |s| then -1
    else if TerminatorWidth(s, from) > 0 then from
    else FirstTerminator(s, from + 1)
  }

  /** The first terminator and its width, or (-1, 0). */
  method OscTitleTerminator(data: seq<Byte>) returns (index: int, width: nat)
    ensures index == FirstTerminator(data, 0)
    ensures width == if index >= 0 then TerminatorWidth(data, index) else 0
  {
    index := 0;
    while index < |data|
      invariant 0 <= index <= |data|
      invariant FirstTerminator(data, 0) == FirstTerminator(data, index)
    {
      if data[index] == BEL {
        return index, 1;
      }
      if data[index] == ESC && index + 1 < |data| && data[index + 1] == BACKSLASH {
        return index, 2;
      }
      index := index + 1;
    }
    return -1, 0;
  }

  lemma {:induction false} FirstTerminatorIsFirst(s: seq<Byte>, from: nat)
    requires from <= |s|
    ensures NoTerminatorIn(s, from, if FirstTerminator(s, from) >= 0 then FirstTerminator(s, from) else |s|)
    decreases |s| - from
  {
    if from < |s| && TerminatorWidth(s, from) == 0 {
      FirstTerminatorIsFirst(s, from + 1);
    }
  }

  lemma FirstTerminatorIs(s: seq<Byte>, from: nat, i: nat)
    requires from <= i < |s| && TerminatorWidth(s, i) > 0 && NoTerminatorIn(s, from, i)
    ensures FirstTerminator(s, from) == i
  {
    FirstTerminatorIsFirst(s, from);
  }

  /** Where the title of a sequence starting at 0 begins, or -1. */
  function TitleStart(t: seq<Byte>): (r: int)
    requires StartAt(t, 0)
    ensures r == -1 || 3 <= r <= |t|
  {
    var separator := IndexByte(t[2..], SEMICOLON);
    if separator < 0 then -1 else separator + 3
  }

  /** Where it ends, or -1 if the sequence is not complete. */
  function TitleEnd(t: seq<Byte>): (r: int)
    requires StartAt(t, 0)
    ensures r == -1 || 3 <= TitleStart(t) <= r < |t|
    ensures r >= 0 ==> 1 <= TerminatorWidth(t, r) && r + TerminatorWidth(t, r) <= |t|
  {
    if TitleStart(t) < 0 then -1 else FirstTerminator(t, TitleStart(t))
  }

  /** The label a sequence sets, if any. */
  function TitlesOf(decode: seq<Byte> -> string, param: seq<Byte>, text: seq<Byte>): seq<string> {
    if param != [0x30] && param != [0x32] then []
    else
      var title := NormalizeAgentLabel(decode(text));
      if title == "" then [] else [title]
  }

  /** The length of a complete sequence, terminator included. */
  function SequenceLength(t: seq<Byte>): (n: nat)
    requires StartAt(t, 0) && TitleEnd(t) >= 0
    ensures 4 <= n <= |t|
  {
    TitleEnd(t) + TerminatorWidth(t, TitleEnd(t))
  }

  predicate HasSequence(s: seq<Byte>) {
    IndexStart(s) >= 0 && TitleEnd(s[IndexStart(s)..]) >= 0
  }

  /** The first sequence and all that follows. */
  function FromFirst(s: seq<Byte>): (t: seq<Byte>)
    requires HasSequence(s)
    ensures StartAt(t, 0) && TitleEnd(t) >= 0 && |t| <= |s|
  {
    s[IndexStart(s)..]
  }

  /** What follows the first sequence. */
  function Beyond(s: seq<Byte>): (t: seq<Byte>)
    requires HasSequence(s)
    ensures |t| < |s|
  {
    FromFirst(s)[SequenceLength(FromFirst(s))..]
  }

  function FirstTitles(decode: seq<Byte> -> string, s: seq<Byte>): seq<string>
    requires HasSequence(s)
  {
    var t := FromFirst(s);
    TitlesOf(decode, t[2..TitleStart(t) - 1], t[TitleStart(t)..TitleEnd(t)])
  }

  /** The titles of one left-to-right scan. */
  function Titles(decode: seq<Byte> -> string, s: seq<Byte>): seq<string>
    decreases |s|
  {
    if !HasSequence(s) then [] else FirstTitles(decode, s) + Titles(decode, Beyond(s))
  }

  /** What the scan leaves once no complete sequence remains. */
  function Rest(s: seq<Byte>): seq<Byte>
    decreases |s|
  {
    if HasSequence(s) then Rest(Beyond(s))
    else if IndexStart(s) >= 0 then s[IndexStart(s)..]
    else s
  }

  /** What the parser keeps of a rest. */
  function Keep(rest: seq<Byte>): seq<Byte> {
    if |rest| <= MAX_PENDING then rest
    else if !StartAt(rest, 0) then
      if rest[|rest| - 1] == ESC then [ESC] else []
    else if TitleStart(rest) < 0 then rest[..2]
    else rest[..TitleStart(rest)]
  }

  class OscTerminalTitleParser {
    const decode: seq<Byte> -> string
    var pending: seq<Byte>

    constructor (decode: seq<Byte> -> string)
      ensures this.decode == decode && pending == []
    {
      this.decode := decode;
      pending := [];
    }

    method Feed(chunk: seq<Byte>) returns (titles: seq<string>)
      modifies this
      ensures chunk == [] ==> titles == [] && pending == old(pending)
      ensures chunk != [] ==>
                && titles == Titles(decode, old(pending) + chunk)
                && pending == Keep(Rest(old(pending) + chunk))
    {
      titles := [];
      if chunk == [] {
        return;
      }
      pending := pending + chunk;
      var more := true;
      while more
        invariant Titles(decode, old(pending) + chunk) == titles + (if more then Titles(decode, pending) else [])
        invariant Keep(Rest(old(pending) + chunk)) == if more then Keep(Rest(pending)) else pending
        decreases more, |pending|
      {
        ghost var had := titles;
        var title;
        more, title := TakeTitle();
        titles := titles + title;
        if more {
          Associate(had, title, Titles(decode, pending));
        }
      }
    }

    /** One turn of the loop in Feed: take the first sequence off the pending
        bytes, or, if there is none, drop what need not be kept. */
    method TakeTitle() returns (found: bool, title: seq<string>)
      modifies this
      ensures found == HasSequence(old(pending))
      ensures found ==> title == FirstTitles(decode, old(pending)) && pending == Beyond(old(pending))
      ensures !found ==> title == [] && pending == Keep(Rest(old(pending)))
    {
      title := [];
      var start := IndexStart(pending);
      if start < 0 {
        if |pending| > MAX_PENDING {
          if pending[|pending| - 1] == ESC {
            pending := pending[|pending| - 1..];
          } else {
            pending := [];
          }
        }
        return false, [];
      }
      pending := pending[start..];
      found, title := TakeSequence();
    }

    /** The rest of the turn, once the pending bytes begin with a start. */
    method TakeSequence() returns (found: bool, title: seq<string>)
      requires StartAt(pending, 0)
      modifies this
      ensures found <==> TitleEnd(old(pending)) >= 0
      ensures found ==>
                var t := old(pending);
                && title == TitlesOf(decode, t[2..TitleStart(t) - 1], t[TitleStart(t)..TitleEnd(t)])
                && pending == t[SequenceLength(t)..]
      ensures !found ==> title == [] && pending == Keep(old(pending))
    {
      title := [];
      if |pending| < 4 {
        assert TitleEnd(pending) < 0;
        return false, [];
      }
      var separatorOffset := IndexByte(pending[2..], SEMICOLON);
      if separatorOffset < 0 {
        if |pending| > MAX_PENDING {
          pending := pending[..2];
        }
        return false, [];
      }
      var separatorIndex := separatorOffset + 2;
      var titleStart := separatorIndex + 1;
      var terminatorIndex, terminatorWidth := TerminatorFrom(titleStart);
      if terminatorIndex < 0 {
        if |pending| > MAX_PENDING {
          pending := pending[..titleStart];
        }
        return false, [];
      }
      var param := pending[2..separatorIndex];
      if param == [0x30] || param == [0x32] {
        var name := NormalizeAgentLabel(decode(pending[titleStart..titleStart + terminatorIndex]));
        if name != "" {
          title := [name];
        }
      }
      pending := pending[titleStart + terminatorIndex + terminatorWidth..];
      return true, title;
    }

    /** The terminator of the sequence at the front, counted from its title. */
    method TerminatorFrom(titleStart: nat) returns (index: int, width: nat)
      requires StartAt(pending, 0) && TitleStart(pending) == titleStart
      ensures TitleEnd(pending) == if index < 0 then -1 else titleStart + index
      ensures index >= 0 ==> SequenceLength(pending) == titleStart + index + width
    {
      index, width := OscTitleTerminator(pending[titleStart..]);
      TerminatorOfTail(pending, titleStart, 0);
    }
  }

  lemma {:induction false} TerminatorOfTail(s: seq<Byte>, from: nat, k: nat)
    requires from <= |s| && k <= |s| - from
    ensures var r := FirstTerminator(s[from..], k);
            && FirstTerminator(s, from + k) == (if r < 0 then -1 else from + r)
            && (r >= 0 ==> TerminatorWidth(s, from + r) == TerminatorWidth(s[from..], r))
    decreases |s| - k
  {
    if from + k < |s| {
      assert TerminatorWidth(s, from + k) == TerminatorWidth(s[from..], k);
      TerminatorOfTail(s, from, k + 1);
    }
  }

  // --- the chunks do not matter ---

  function Concat(chunks: seq<seq<Byte>>): seq<Byte> {
    if chunks == [] then [] else chunks[0] + Concat(chunks[1..])
  }

  /** The titles reported for `chunks` fed one after the other. */
  function Reported(decode: seq<Byte> -> string, pending: seq<Byte>, chunks: seq<seq<Byte>>): seq<string>
    decreases |chunks|
  {
    if chunks == [] then []
    else if chunks[0] == [] then Reported(decode, pending, chunks[1..])
    else Titles(decode, pending + chunks[0]) + Reported(decode, Keep(Rest(pending + chunks[0])), chunks[1..])
  }

  /** The bytes pending after `chunks`. */
  function PendingAfter(pending: seq<Byte>, chunks: seq<seq<Byte>>): seq<Byte>
    decreases |chunks|
  {
    if chunks == [] then pending
    else if chunks[0] == [] then PendingAfter(pending, chunks[1..])
    else PendingAfter(Keep(Rest(pending + chunks[0])), chunks[1..])
  }

  /** Every complete sequence of the stream takes at most `n` bytes. */
  ghost predicate Fits(s: seq<Byte>, n: nat)
    decreases |s|
  {
    HasSequence(s) ==> SequenceLength(FromFirst(s)) <= n && Fits(Beyond(s), n)
  }

  lemma StartIsFirst(s: seq<Byte>, i: nat)
    requires StartAt(s, i) && NoStartBefore(s, i)
    ensures IndexStart(s) == i
  {
    IndexStartIsFirst(s);
  }

  /** Junk before the first start can be dropped. */
  lemma DropJunk(s: seq<Byte>, k: nat)
    requires k <= |s| && NoStartBefore(s, k)
    ensures IndexStart(s[k..]) == if IndexStart(s) < 0 then -1 else IndexStart(s) - k
  {
    forall j | 0 <= j < |s| - k
      ensures StartAt(s[k..], j) == StartAt(s, k + j)
    {
    }
    IndexStartIsFirst(s);
    IndexStartIsFirst(s[k..]);
    if IndexStart(s) >= 0 {
      assert StartAt(s[k..], IndexStart(s) - k);
      StartIsFirst(s[k..], IndexStart(s) - k);
    }
  }

  lemma DropJunkKeepsFirst(s: seq<Byte>, k: nat)
    requires k <= |s| && NoStartBefore(s, k)
    ensures HasSequence(s[k..]) == HasSequence(s)
    ensures HasSequence(s) ==> FromFirst(s[k..]) == FromFirst(s)
  {
    DropJunk(s, k);
    if IndexStart(s) >= 0 {
      assert k <= IndexStart(s) && s[k..][IndexStart(s) - k..] == s[IndexStart(s)..];
    }
  }

  lemma DropJunkKeepsTitles(decode: seq<Byte> -> string, s: seq<Byte>, k: nat, n: nat)
    requires k <= |s| && NoStartBefore(s, k)
    ensures Titles(decode, s[k..]) == Titles(decode, s)
    ensures Fits(s[k..], n) <==> Fits(s, n)
  {
    DropJunkKeepsFirst(s, k);
    SameFirstSameTitles(decode, s[k..], s);
  }

  /** The titles depend on the bytes from the first sequence on. */
  lemma SameFirstSameTitles(decode: seq<Byte> -> string, a: seq<Byte>, b: seq<Byte>)
    requires HasSequence(a) == HasSequence(b) && (HasSequence(a) ==> FromFirst(a) == FromFirst(b))
    ensures Titles(decode, a) == Titles(decode, b)
  {
    if HasSequence(a) {
      assert Beyond(a) == Beyond(b) && FirstTitles(decode, a) == FirstTitles(decode, b);
    }
  }

  lemma TitleStartStays(t: seq<Byte>, x: seq<Byte>)
    requires StartAt(t, 0) && TitleStart(t) >= 0
    ensures StartAt(t + x, 0) && TitleStart(t + x) == TitleStart(t)
  {
    assert (t + x)[2..] == t[2..] + x;
    IndexByteIsFirst(t[2..], SEMICOLON);
    IndexByteIs(t[2..] + x, SEMICOLON, IndexByte(t[2..], SEMICOLON));
  }

  /** More bytes do not move the end of a complete sequence. */
  lemma CompleteStaysComplete(t: seq<Byte>, x: seq<Byte>)
    requires StartAt(t, 0) && TitleEnd(t) >= 0
    ensures StartAt(t + x, 0) && TitleStart(t + x) == TitleStart(t)
    ensures TitleEnd(t + x) == TitleEnd(t) && SequenceLength(t + x) == SequenceLength(t)
  {
    TitleStartStays(t, x);
    var end := TitleEnd(t);
    FirstTerminatorIsFirst(t, TitleStart(t));
    forall j | 0 <= j <= end && (j == end || TerminatorWidth(t, j) == 0)
      ensures TitleStart(t) <= j ==> TerminatorWidth(t + x, j) == TerminatorWidth(t, j)
    {
    }
    FirstTerminatorIs(t + x, TitleStart(t), end);
  }

  /** More bytes do not move the first start either. */
  lemma StartStays(s: seq<Byte>, x: seq<Byte>)
    requires IndexStart(s) >= 0
    ensures IndexStart(s + x) == IndexStart(s)
    ensures (s + x)[IndexStart(s)..] == s[IndexStart(s)..] + x
  {
    IndexStartIsFirst(s);
    forall j | 0 <= j < IndexStart(s)
      ensures !StartAt(s + x, j)
    {
      assert !StartAt(s, j);
    }
    assert StartAt(s + x, IndexStart(s));
    StartIsFirst(s + x, IndexStart(s));
  }

  lemma SliceStays(t: seq<Byte>, x: seq<Byte>, from: nat, to: nat)
    requires from <= to <= |t|
    ensures (t + x)[from..to] == t[from..to]
    ensures (t + x)[from..] == t[from..] + x
  {
  }

  lemma FirstSequenceStays(s: seq<Byte>, x: seq<Byte>)
    requires HasSequence(s)
    ensures HasSequence(s + x) && FromFirst(s + x) == FromFirst(s) + x
    ensures SequenceLength(FromFirst(s + x)) == SequenceLength(FromFirst(s))
    ensures TitleStart(FromFirst(s + x)) == TitleStart(FromFirst(s)) && TitleEnd(FromFirst(s + x)) == TitleEnd(FromFirst(s))
  {
    StartStays(s, x);
    CompleteStaysComplete(FromFirst(s), x);
  }

  lemma BeyondStays(s: seq<Byte>, x: seq<Byte>)
    requires HasSequence(s)
    ensures HasSequence(s + x) && Beyond(s + x) == Beyond(s) + x
  {
    FirstSequenceStays(s, x);
    SliceStays(FromFirst(s), x, SequenceLength(FromFirst(s)), |FromFirst(s)|);
  }

  lemma FirstTitleStays(decode: seq<Byte> -> string, s: seq<Byte>, x: seq<Byte>)
    requires HasSequence(s)
    ensures HasSequence(s + x) && FirstTitles(decode, s + x) == FirstTitles(decode, s)
  {
    FirstSequenceStays(s, x);
    var t, u := FromFirst(s), FromFirst(s + x);
    assert u[2..TitleStart(u) - 1] == t[2..TitleStart(t) - 1] by {
      SliceStays(t, x, 2, TitleStart(t) - 1);
    }
    assert u[TitleStart(u)..TitleEnd(u)] == t[TitleStart(t)..TitleEnd(t)] by {
      SliceStays(t, x, TitleStart(t), TitleEnd(t));
    }
  }

  /** The scan of more bytes begins as the scan of these. */
  lemma ScanBegins(decode: seq<Byte> -> string, s: seq<Byte>, x: seq<Byte>, n: nat)
    requires HasSequence(s)
    ensures Titles(decode, s + x) == FirstTitles(decode, s) + Titles(decode, Beyond(s) + x)
    ensures Fits(s + x, n) ==> Fits(Beyond(s) + x, n)
  {
    BeyondStays(s, x);
    FirstTitleStays(decode, s, x);
  }

  lemma ScanResumesAtStart(decode: seq<Byte> -> string, s: seq<Byte>, x: seq<Byte>, n: nat)
    requires IndexStart(s) >= 0
    ensures Titles(decode, s + x) == Titles(decode, s[IndexStart(s)..] + x)
    ensures Fits(s + x, n) ==> Fits(s[IndexStart(s)..] + x, n)
  {
    StartStays(s, x);
    IndexStartIsFirst(s + x);
    DropJunkKeepsTitles(decode, s + x, IndexStart(s), n);
  }

  lemma ScanResumesInRest(decode: seq<Byte> -> string, s: seq<Byte>, x: seq<Byte>, n: nat)
    requires !HasSequence(s)
    ensures Titles(decode, s) == [] && Titles(decode, s + x) == Titles(decode, Rest(s) + x)
    ensures Fits(s + x, n) ==> Fits(Rest(s) + x, n)
  {
    if IndexStart(s) >= 0 {
      ScanResumesAtStart(decode, s, x, n);
    }
  }

  lemma TitlesBegin(decode: seq<Byte> -> string, s: seq<Byte>)
    requires HasSequence(s)
    ensures Titles(decode, s) == FirstTitles(decode, s) + Titles(decode, Beyond(s)) && Rest(s) == Rest(Beyond(s))
  {
  }

  /** Scanning can stop at any byte and resume with what it left. */
  lemma {:induction false} ScanResumes(decode: seq<Byte> -> string, s: seq<Byte>, x: seq<Byte>, n: nat)
    ensures Titles(decode, s + x) == Titles(decode, s) + Titles(decode, Rest(s) + x)
    ensures Fits(s + x, n) ==> Fits(Rest(s) + x, n)
    decreases |s|
  {
    if HasSequence(s) {
      ScanBegins(decode, s, x, n);
      TitlesBegin(decode, s);
      ScanResumes(decode, Beyond(s), x, n);
      Associate(FirstTitles(decode, s), Titles(decode, Beyond(s)), Titles(decode, Rest(s) + x));
    } else {
      ScanResumesInRest(decode, s, x, n);
      NothingInFront(Titles(decode, Rest(s) + x));
    }
  }

  /** Nothing in `s` can be reported yet. */
  predicate Settled(s: seq<Byte>) {
    IndexStart(s) < 0 || (StartAt(s, 0) && TitleEnd(s) < 0)
  }

  /** What a scan leaves: junk, or the beginning of a sequence. */
  lemma {:induction false} RestIsSettled(s: seq<Byte>)
    ensures Settled(Rest(s))
    decreases |s|
  {
    if HasSequence(s) {
      RestIsSettled(Beyond(s));
    }
  }

  lemma PartialHasNoSequence(t: seq<Byte>)
    requires StartAt(t, 0)
    ensures HasSequence(t) <==> TitleEnd(t) >= 0
    ensures HasSequence(t) ==> FromFirst(t) == t
  {
    StartIsFirst(t, 0);
    assert t[0..] == t;
  }

  /** The header of a sequence, cut off right after its separator. */
  lemma HeaderEndsInSeparator(t: seq<Byte>)
    requires StartAt(t, 0) && TitleStart(t) >= 0
    ensures var header := t[..TitleStart(t)]; StartAt(header, 0) && TitleStart(header) == |header| && TitleEnd(header) < 0
  {
    var header := t[..TitleStart(t)];
    assert header[2..] == t[2..][..|header| - 2];
    IndexByteIsFirst(t[2..], SEMICOLON);
    IndexByteIs(header[2..], SEMICOLON, |header| - 3);
  }

  /** If `short` is `long` without some bytes before `from`, it has no more terminators from there on. */
  lemma CutStaysPartial(long: seq<Byte>, short: seq<Byte>, cut: nat, from: nat)
    requires |long| == cut + |short| && from <= |short| && long[cut + from..] == short[from..]
    requires NoTerminatorIn(long, cut + from, |long|)
    ensures FirstTerminator(short, from) < 0
  {
    forall i | from <= i < |short|
      ensures TerminatorWidth(short, i) == TerminatorWidth(long, cut + i)
    {
      assert short[i] == short[from..][i - from] == long[cut + from..][i - from] == long[cut + i];
      if i + 1 < |short| {
        assert short[i + 1] == short[from..][i + 1 - from] == long[cut + from..][i + 1 - from] == long[cut + i + 1];
      }
    }
  }

  /** Cutting out the middle of a sequence that never ends does not make it
      end: neither behind its separator nor, if it has none yet, behind its start. */
  lemma ShortenedStaysPartial(rest: seq<Byte>, x: seq<Byte>)
    requires StartAt(rest, 0) && TitleEnd(rest + x) < 0
    requires TitleEnd(rest) < 0 && |rest| > MAX_PENDING
    ensures StartAt(Keep(rest) + x, 0) && TitleEnd(Keep(rest) + x) < 0
  {
    var short := Keep(rest) + x;
    var cut := |rest| - |Keep(rest)|;
    if TitleStart(rest) >= 0 {
      TitleStartStays(rest, x);
      HeaderEndsInSeparator(rest);
      TitleStartStays(rest[..TitleStart(rest)], x);
      TailsAgree(rest, Keep(rest), x, TitleStart(short));
      FirstTerminatorIsFirst(rest + x, TitleStart(rest + x));
      CutStaysPartial(rest + x, short, cut, TitleStart(short));
    } else if TitleStart(short) >= 0 {
      SeparatorComesLater(rest, x);
      TailsAgree(rest, Keep(rest), x, TitleStart(short));
      FirstTerminatorIsFirst(rest + x, TitleStart(rest + x));
      CutStaysPartial(rest + x, short, cut, TitleStart(short));
    }
  }

  lemma TailsAgree(a: seq<Byte>, b: seq<Byte>, x: seq<Byte>, from: nat)
    requires |b| <= from <= |b| + |x| && |b| <= |a|
    ensures (a + x)[|a| - |b| + from..] == (b + x)[from..]
  {
  }

  /** The separator of a header without one is in the bytes that follow. */
  lemma SeparatorComesLater(rest: seq<Byte>, x: seq<Byte>)
    requires StartAt(rest, 0) && TitleStart(rest) < 0 && TitleStart(rest[..2] + x) >= 0
    ensures TitleStart(rest + x) == |rest| - 2 + TitleStart(rest[..2] + x)
  {
    assert (rest[..2] + x)[2..] == x && (rest + x)[2..] == rest[2..] + x;
    IndexOfSecond(rest[2..], x, SEMICOLON);
  }

  lemma IndexOfSecond(a: seq<Byte>, x: seq<Byte>, b: Byte)
    requires IndexByte(a, b) < 0 && IndexByte(x, b) >= 0
    ensures IndexByte(a + x, b) == |a| + IndexByte(x, b)
  {
    IndexByteIsFirst(a, b);
    IndexByteIsFirst(x, b);
    IndexByteIs(a + x, b, |a| + IndexByte(x, b));
  }

  /** A sequence that is complete within `rest` is complete in `rest`. */
  lemma CompleteWithin(rest: seq<Byte>, x: seq<Byte>)
    requires StartAt(rest, 0) && StartAt(rest + x, 0)
    ensures TitleEnd(rest + x) >= 0 && SequenceLength(rest + x) <= |rest| ==> TitleEnd(rest) >= 0
  {
    var whole := rest + x;
    if TitleEnd(whole) >= 0 && SequenceLength(whole) <= |rest| {
      assert whole[2..] == rest[2..] + x;
      var i := IndexByte(whole[2..], SEMICOLON);
      IndexByteIsFirst(whole[2..], SEMICOLON);
      assert forall j :: 0 <= j <= i ==> rest[2..][j] == whole[2..][j];
      IndexByteIs(rest[2..], SEMICOLON, i);
      var e := TitleEnd(whole);
      assert TerminatorWidth(rest, e) == TerminatorWidth(whole, e);
      FirstTerminatorIsFirst(rest, TitleStart(rest));
    }
  }

  lemma KeepIsSettled(rest: seq<Byte>)
    requires Settled(rest)
    ensures Settled(Keep(rest))
  {
    if |rest| > MAX_PENDING && StartAt(rest, 0) {
      StartIsFirst(rest, 0);
      assert rest + [] == rest && Keep(rest) + [] == Keep(rest);
      ShortenedStaysPartial(rest, []);
    }
  }

  /** Of a sequence too long to keep, nothing is reported either way. */
  lemma LongPartialIsInvisible(decode: seq<Byte> -> string, rest: seq<Byte>, x: seq<Byte>)
    requires StartAt(rest, 0) && TitleEnd(rest) < 0 && |rest| > MAX_PENDING
    requires Fits(rest + x, MAX_PENDING + 1)
    ensures !HasSequence(rest + x) && !HasSequence(Keep(rest) + x)
  {
    PartialHasNoSequence(rest + x);
    CompleteWithin(rest, x);
    ShortenedStaysPartial(rest, x);
    PartialHasNoSequence(Keep(rest) + x);
  }

  /** What the parser throws away cannot be told from the titles that follow. */
  lemma KeepIsInvisible(decode: seq<Byte> -> string, rest: seq<Byte>, x: seq<Byte>)
    requires Settled(rest) && Fits(rest + x, MAX_PENDING + 1)
    ensures Titles(decode, Keep(rest) + x) == Titles(decode, rest + x)
    ensures Fits(Keep(rest) + x, MAX_PENDING + 1)
  {
    if |rest| > MAX_PENDING {
      if StartAt(rest, 0) {
        StartIsFirst(rest, 0);
        LongPartialIsInvisible(decode, rest, x);
      } else {
        var k := |rest| - |Keep(rest)|;
        IndexStartIsFirst(rest);
        forall j | 0 <= j < k
          ensures !StartAt(rest + x, j)
        {
          assert !StartAt(rest, j);
        }
        assert (rest + x)[k..] == Keep(rest) + x;
        DropJunkKeepsTitles(decode, rest + x, k, MAX_PENDING + 1);
      }
    }
  }

  /** If no sequence takes more than 4097 bytes, then however the stream is cut
      into chunks, the parser reports the titles of one scan of the stream. */
  lemma {:induction false} ChunksDoNotMatter(decode: seq<Byte> -> string, pending: seq<Byte>, chunks: seq<seq<Byte>>)
    requires Settled(pending)
    requires Fits(pending + Concat(chunks), 4097)
    ensures Reported(decode, pending, chunks) == Titles(decode, pending + Concat(chunks))
    decreases |chunks|
  {
    if chunks == [] {
      assert pending + [] == pending;
      if StartAt(pending, 0) {
        PartialHasNoSequence(pending);
      }
    } else {
      var later := Concat(chunks[1..]);
      var fed := pending + chunks[0];
      assert pending + Concat(chunks) == fed + later;
      if chunks[0] == [] {
        assert fed == pending;
        ChunksDoNotMatter(decode, pending, chunks[1..]);
      } else {
        ScanResumes(decode, fed, later, MAX_PENDING + 1);
        RestIsSettled(fed);
        KeepIsInvisible(decode, Rest(fed), later);
        KeepIsSettled(Rest(fed));
        ChunksDoNotMatter(decode, Keep(Rest(fed)), chunks[1..]);
      }
    }
  }

  // --- 4097 bytes is the exact limit ---

  /** An OSC header that ends at its first separator. */
  predicate IsHeader(s: seq<Byte>) {
    StartAt(s, 0) && TitleStart(s) == |s|
  }

  /** A stream that is one complete sequence, whatever its parameter, text and terminator. */
  predicate IsSequence(t: seq<Byte>) {
    StartAt(t, 0) && TitleEnd(t) >= 0 && SequenceLength(t) == |t|
  }

  lemma SequenceIsScanned(decode: seq<Byte> -> string, t: seq<Byte>)
    requires IsSequence(t)
    ensures HasSequence(t) && FromFirst(t) == t && Beyond(t) == []
    ensures Titles(decode, t) == FirstTitles(decode, t)
  {
    PartialHasNoSequence(t);
    assert FirstTitles(decode, t) + [] == FirstTitles(decode, t);
  }

  lemma HeaderStays(t: seq<Byte>, n: nat)
    requires StartAt(t, 0) && 0 <= TitleStart(t) <= n <= |t|
    ensures StartAt(t[..n], 0) && TitleStart(t[..n]) == TitleStart(t)
  {
    var header := t[..TitleStart(t)];
    HeaderEndsInSeparator(t);
    TitleStartStays(header, t[TitleStart(t)..n]);
    assert header + t[TitleStart(t)..n] == t[..n];
  }

  /** Without its last byte a sequence is not complete. */
  lemma LastByteCompletes(t: seq<Byte>)
    requires IsSequence(t)
    ensures StartAt(t[..|t| - 1], 0) && TitleStart(t[..|t| - 1]) == TitleStart(t) && TitleEnd(t[..|t| - 1]) < 0
  {
    var p, last := t[..|t| - 1], t[|t| - 1..];
    HeaderStays(t, |t| - 1);
    assert p + last == t;
    if TitleEnd(p) >= 0 {
      CompleteStaysComplete(p, last);
    }
  }

  /** Of a long sequence without its last byte, only the header is kept. */
  lemma UnendedIsCut(t: seq<Byte>)
    requires IsSequence(t) && |t| > MAX_PENDING + 1
    ensures !HasSequence(t[..|t| - 1]) && Keep(Rest(t[..|t| - 1])) == t[..TitleStart(t)]
  {
    var p := t[..|t| - 1];
    LastByteCompletes(t);
    PartialHasNoSequence(p);
    StartIsFirst(p, 0);
    assert p[0..] == p && p[..TitleStart(t)] == t[..TitleStart(t)];
  }

  /** A byte behind a header completes nothing but a blank title. */
  lemma HeaderSetsNoTitle(decode: seq<Byte> -> string, header: seq<Byte>, last: Byte)
    requires IsHeader(header) && decode([]) == ""
    ensures Titles(decode, header + [last]) == []
  {
    var s := header + [last];
    TitleStartStays(header, [last]);
    PartialHasNoSequence(s);
    if HasSequence(s) {
      assert TitleEnd(s) == |header| && s[|header|..|header|] == [];
      assert Beyond(s) == [] && FirstTitles(decode, s) == [];
    }
  }

  lemma LastChunk(decode: seq<Byte> -> string, pending: seq<Byte>, b: seq<Byte>)
    requires b != []
    ensures Concat([b]) == b && Reported(decode, pending, [b]) == Titles(decode, pending + b)
  {
    assert [b][1..] == [];
  }

  lemma TwoChunks(decode: seq<Byte> -> string, a: seq<Byte>, b: seq<Byte>)
    requires a != [] && b != []
    ensures Concat([a, b]) == a + b
    ensures Reported(decode, [], [a, b]) == Titles(decode, a) + Titles(decode, Keep(Rest(a)) + b)
  {
    assert [a, b][1..] == [b] && [] + a == a;
    LastChunk(decode, Keep(Rest(a)), b);
  }

  /** Cut before its last byte, a longer sequence sets no title at all. */
  lemma LongTitleIsLost(decode: seq<Byte> -> string, t: seq<Byte>)
    requires IsSequence(t) && decode([]) == "" && |t| > 4097
    ensures var p, last := t[..|t| - 1], t[|t| - 1..];
            Concat([p, last]) == t && Reported(decode, [], [p, last]) == []
  {
    var p, last := t[..|t| - 1], t[|t| - 1..];
    UnendedIsCut(t);
    TwoChunks(decode, p, last);
    HeaderEndsInSeparator(t);
    HeaderSetsNoTitle(decode, t[..TitleStart(t)], t[|t| - 1]);
    assert last == [t[|t| - 1]] && p + last == t;
  }

  lemma ShortTitleIsSafe(decode: seq<Byte> -> string, t: seq<Byte>, chunks: seq<seq<Byte>>)
    requires IsSequence(t) && |t| <= MAX_PENDING + 1 && Concat(chunks) == t
    ensures Reported(decode, [], chunks) == Titles(decode, t)
  {
    SequenceIsScanned(decode, t);
    assert [] + Concat(chunks) == t;
    assert Fits(t, MAX_PENDING + 1);
    ChunksDoNotMatter(decode, [], chunks);
  }

  lemma LosingChunks(decode: seq<Byte> -> string, t: seq<Byte>) returns (chunks: seq<seq<Byte>>)
    requires IsSequence(t) && decode([]) == "" && |t| > MAX_PENDING + 1
    ensures Concat(chunks) == t && Reported(decode, [], chunks) == []
  {
    LongTitleIsLost(decode, t);
    chunks := [t[..|t| - 1], t[|t| - 1..]];
  }

  /** However the stream is cut into chunks, the titles of one scan of it are reported. */
  ghost predicate ReportedInAnyChunks(decode: seq<Byte> -> string, t: seq<Byte>) {
    forall chunks :: Concat(chunks) == t ==> Reported(decode, [], chunks) == Titles(decode, t)
  }

  /** The title set by a single sequence is independent of the chunks if and only if it takes at most 4097 bytes. */
  lemma LongestSafeSequence(decode: seq<Byte> -> string, t: seq<Byte>)
    requires IsSequence(t) && decode([]) == "" && Titles(decode, t) != []
    ensures ReportedInAnyChunks(decode, t) <==> |t| <= 4097
  {
    if |t| <= MAX_PENDING + 1 {
      forall chunks | Concat(chunks) == t
        ensures Reported(decode, [], chunks) == Titles(decode, t)
      {
        ShortTitleIsSafe(decode, t, chunks);
      }
    } else {
      var chunks := LosingChunks(decode, t);
      assert Reported(decode, [], chunks) != Titles(decode, t);
    }
  }

  // --- the pending bytes are bounded ---

  predicate Bounded(pending: seq<Byte>, chunkSize: nat) {
    |pending| <= MAX_PENDING || (IsHeader(pending) && |pending| <= MAX_PENDING + chunkSize)
  }

  lemma {:induction false} RestIsShorter(s: seq<Byte>)
    ensures |Rest(s)| <= |s|
    decreases |s|
  {
    if HasSequence(s) {
      RestIsShorter(Beyond(s));
    }
  }

  lemma HeaderFed(header: seq<Byte>, chunk: seq<Byte>)
    requires IsHeader(header)
    ensures var s := header + chunk;
            if HasSequence(s) then |Rest(s)| < |chunk| else Rest(s) == s && StartAt(s, 0) && TitleStart(s) == |header|
  {
    var s := header + chunk;
    TitleStartStays(header, chunk);
    PartialHasNoSequence(s);
    StartIsFirst(s, 0);
    if HasSequence(s) {
      RestIsShorter(Beyond(s));
    }
  }

  lemma FeedKeepsBound(pending: seq<Byte>, chunk: seq<Byte>, chunkSize: nat)
    requires Bounded(pending, chunkSize) && |chunk| <= chunkSize
    ensures Bounded(Keep(Rest(pending + chunk)), chunkSize)
  {
    var rest := Rest(pending + chunk);
    RestIsShorter(pending + chunk);
    if |pending| > MAX_PENDING {
      HeaderFed(pending, chunk);
    }
    if |rest| > MAX_PENDING && StartAt(rest, 0) && TitleStart(rest) >= 0 {
      HeaderEndsInSeparator(rest);
    }
  }

  /** Fed with chunks of at most `chunkSize` bytes, the parser never keeps more
      than 4096 bytes, except a header of at most 4096 + chunkSize bytes. */
  lemma {:induction false} PendingStaysBounded(pending: seq<Byte>, chunks: seq<seq<Byte>>, chunkSize: nat)
    requires Bounded(pending, chunkSize) && forall i :: 0 <= i < |chunks| ==> |chunks[i]| <= chunkSize
    ensures Bounded(PendingAfter(pending, chunks), chunkSize)
    ensures var r := PendingAfter(pending, chunks);
            |r| <= 4096 || (StartAt(r, 0) && TitleStart(r) == |r| <= 4096 + chunkSize)
    decreases |chunks|
  {
    if chunks != [] {
      FeedKeepsBound(pending, chunks[0], chunkSize);
      if chunks[0] == [] {
        PendingStaysBounded(pending, chunks[1..], chunkSize);
      } else {
        PendingStaysBounded(Keep(Rest(pending + chunks[0])), chunks[1..], chunkSize);
      }
    }
  }
}
