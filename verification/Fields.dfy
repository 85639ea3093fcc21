/** Colon-delimited packet fields (openaimp-fsd/fsd/util.go). A byte is written as the char with
    the same code: the protocol's alphabet is ISO/IEC 8859-1. */
module Fields {

  const CRLF: string := "\r\n"

  /** bytes.IndexByte: the first position of c, or -1. */
  function IndexByte(s: string, c: char): (i: int)
    ensures i == -1 <==> c !in s
    ensures i != -1 ==> 0 <= i < |s| && s[i] == c && c !in s[..i]
  {
    if s == [] then -1
    else if s[0] == c then 0
    else
      var rest := IndexByte(s[1..], c);
      assert s == [s[0]] + s[1..];
      if rest == -1 then -1
      else assert s[..rest + 1] == [s[0]] + s[1..][..rest]; rest + 1
  }

  /** bytes.Count of a single byte. */
  function CountByte(s: string, c: char): nat {
    if s == [] then 0 else (if s[0] == c then 1 else 0) + CountByte(s[1..], c)
  }

  function CountFields(packet: string): nat {
    CountByte(packet, ':') + 1
  }

  /** Everything after the first colon; the packet itself when it has none. */
  function RebaseToNextField(packet: string): string {
    packet[IndexByte(packet, ':') + 1..]
  }

  predicate HasSuffix(s: string, suffix: string) {
    |suffix| <= |s| && s[|s| - |suffix|..] == suffix
  }

  function CutSuffix(s: string, suffix: string): string {
    if HasSuffix(s, suffix) then s[..|s| - |suffix|] else s
  }

  function CutPrefix(s: string, prefix: string): string {
    if prefix <= s then s[|prefix|..] else s
  }

  /** The specification: the packet cut at every colon. */
  function Split(packet: string): (fields: seq<string>)
    ensures |fields| > 0
    decreases |packet|
  {
    var i := IndexByte(packet, ':');
    if i == -1 then [packet] else [packet[..i]] + Split(packet[i + 1..])
  }

  function Join(fields: seq<string>): string
    requires |fields| > 0
  {
    if |fields| == 1 then fields[0] else fields[0] + ":" + Join(fields[1..])
  }

  function Min(a: int, b: int): int {
    if a < b then a else b
  }

  /** The field an accessor returns: the last one when the index is too large, without one
      trailing CRLF. */
  function Field(packet: string, index: nat): string {
    CutSuffix(Split(packet)[Min(index, |Split(packet)| - 1)], CRLF)
  }

  /** The packet from its field k on; from the last field when k is too large. */
  function From(packet: string, k: nat): string {
    Join(Split(packet)[Min(k, |Split(packet)| - 1)..])
  }

  lemma CountAppend(a: string, b: string, c: char)
    ensures CountByte(a + b, c) == CountByte(a, c) + CountByte(b, c)
  {
    if a == [] {
      assert a + b == b;
    } else {
      assert (a + b)[1..] == a[1..] + b;
      CountAppend(a[1..], b, c);
    }
  }

  lemma CountAbsent(s: string, c: char)
    ensures CountByte(s, c) == 0 <==> c !in s
  {
    if s != [] {
      CountAbsent(s[1..], c);
      assert s == [s[0]] + s[1..];
    }
  }

  /** A packet splits at its first colon. */
  lemma FirstColon(head: string, tail: string)
    requires ':' !in head
    ensures IndexByte(head + ":" + tail, ':') == |head|
    ensures RebaseToNextField(head + ":" + tail) == tail
    ensures Split(head + ":" + tail) == [head] + Split(tail)
    ensures CountFields(head + ":" + tail) == 1 + CountFields(tail)
  {
    var packet := head + ":" + tail;
    assert packet[|head|] == ':';
    assert forall k :: 0 <= k < |head| ==> packet[k] == head[k];
    assert forall i :: |head| < i <= |packet| ==> packet[..i][|head|] == ':';
    assert packet[|head| + 1..] == tail && packet[..|head|] == head;
    CountAbsent(head, ':');
    CountAppend(head + ":", tail, ':');
    CountAppend(head, ":", ':');
  }

  /** Split inverts joining, leaves no colon inside a field and is counted by CountFields. */
  lemma {:induction false} SplitIsExact(packet: string)
    ensures Join(Split(packet)) == packet
    ensures |Split(packet)| == CountFields(packet)
    ensures forall k :: 0 <= k < |Split(packet)| ==> ':' !in Split(packet)[k]
    decreases |packet|
  {
    var i := IndexByte(packet, ':');
    if i == -1 {
      CountAbsent(packet, ':');
    } else {
      var head, tail := packet[..i], packet[i + 1..];
      assert packet == head + ":" + tail;
      FirstColon(head, tail);
      SplitIsExact(tail);
      assert Split(packet)[1..] == Split(tail);
    }
  }

  /** Any list of colon-free fields is what Split gives back for their join. */
  lemma {:induction false} JoinSplits(fields: seq<string>)
    requires |fields| > 0 && forall k :: 0 <= k < |fields| ==> ':' !in fields[k]
    ensures Split(Join(fields)) == fields
  {
    if |fields| == 1 {
      assert fields == [fields[0]];
    } else {
      JoinSplits(fields[1..]);
      FirstColon(fields[0], Join(fields[1..]));
      assert fields == [fields[0]] + fields[1..];
    }
  }

  /** Rebasing drops fields from the front and sticks at the last one. */
  lemma RebaseDropsField(packet: string)
    ensures Split(RebaseToNextField(packet)) == if |Split(packet)| == 1 then Split(packet) else Split(packet)[1..]
  {
    var i := IndexByte(packet, ':');
    if i == -1 {
      assert packet[i + 1..] == packet;
    }
  }

  /** getField: the loop of rebases followed by the two cuts. */
  method GetField(packet: string, index: nat) returns (field: string)
    ensures field == Field(packet, index)
  {
    var rest := packet;
    for k := 0 to index
      invariant Split(rest) == Split(packet)[Min(k, |Split(packet)| - 1)..]
    {
      RebaseDropsField(rest);
      rest := RebaseToNextField(rest);
    }
    var i := IndexByte(rest, ':');
    if i != -1 {
      rest := rest[..i];
    }
    field := CutSuffix(rest, CRLF);
  }

  /** The loop of rebases with which the flight-plan section is reached. */
  method Rebase(packet: string, times: nat) returns (rest: string)
    ensures rest == From(packet, times)
  {
    rest := packet;
    for k := 0 to times
      invariant Split(rest) == Split(packet)[Min(k, |Split(packet)| - 1)..]
    {
      RebaseDropsField(rest);
      rest := RebaseToNextField(rest);
    }
    SplitIsExact(rest);
  }

  /** A field is a piece of the packet without colons. */
  lemma FieldHasNoColon(packet: string, index: nat)
    ensures ':' !in Field(packet, index)
  {
    SplitIsExact(packet);
  }
}
