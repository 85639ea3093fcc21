/** Line framing over a shared buffer: bufio.Scanner with the buffer of openaimp-fsd/fsd/conn.go, and
    the event loop of openaimp-fsd/fsd/client.go that appends the delimiter to the scanner's slice. */
module Framing {
  const CR: char := '\r'
  const LF: char := '\n'
  const CRLF: seq<char> := [CR, LF]

  /** Position of the first line feed, or -1. */
  function FirstLf(s: seq<char>): (i: int)
    ensures i == -1 <==> LF !in s
    ensures i != -1 ==> 0 <= i < |s| && s[i] == LF && LF !in s[..i]
  {
    if s == [] then -1
    else if s[0] == LF then 0
    else
      var rest := FirstLf(s[1..]);
      assert s == [s[0]] + s[1..];
      if rest == -1 then -1
      else assert s[..rest + 1] == [s[0]] + s[1..][..rest]; rest + 1
  }

  /** dropCR of bufio.ScanLines. */
  function DropCr(line: seq<char>): seq<char> {
    if |line| > 0 && line[|line| - 1] == CR then line[..|line| - 1] else line
  }

  /** The stream cut after every line feed, an unterminated rest last; each piece with its carriage
      return and line feed, which the last may lack. */
  function Packets(stream: seq<char>): seq<seq<char>>
    decreases |stream|
  {
    if stream == [] then []
    else
      var i := FirstLf(stream);
      if i == -1 then [DropCr(stream) + CRLF]
      else [DropCr(stream[..i]) + CRLF] + Packets(stream[i + 1..])
  }

  function Flatten(pieces: seq<seq<char>>): seq<char> {
    if pieces == [] then [] else pieces[0] + Flatten(pieces[1..])
  }

  /** Every line feed follows a carriage return. */
  predicate Delimited(stream: seq<char>) {
    forall i :: 0 <= i < |stream| && stream[i] == LF ==> i > 0 && stream[i - 1] == CR
  }

  /** What the last, unterminated piece lacks. */
  function Missing(stream: seq<char>): seq<char> {
    if stream == [] || stream[|stream| - 1] == LF then []
    else if stream[|stream| - 1] == CR then [LF]
    else CRLF
  }

  lemma DelimitedTail(stream: seq<char>, i: nat)
    requires Delimited(stream) && i < |stream| && stream[i] == LF
    ensures Delimited(stream[i + 1..])
  {
  }

  /** A line of a delimited stream is its text without the carriage return, and CRLF. */
  lemma LineIsWhole(stream: seq<char>, i: nat)
    requires Delimited(stream) && i < |stream| && stream[i] == LF
    ensures DropCr(stream[..i]) + CRLF == stream[..i + 1]
  {
  }

  lemma RestIsCompleted(stream: seq<char>)
    requires stream != [] && LF !in stream
    ensures DropCr(stream) + CRLF == stream + Missing(stream)
  {
  }

  lemma MissingOfTail(stream: seq<char>, i: nat)
    requires i < |stream| && stream[i] == LF
    ensures Missing(stream[i + 1..]) == Missing(stream)
  {
  }

  lemma PacketsStep(stream: seq<char>, i: nat)
    requires stream != [] && FirstLf(stream) == i
    ensures Packets(stream) == [DropCr(stream[..i]) + CRLF] + Packets(stream[i + 1..])
  {
  }

  lemma PacketsLast(stream: seq<char>)
    requires stream != [] && LF !in stream
    ensures Packets(stream) == [DropCr(stream) + CRLF]
  {
  }

  lemma FlattenCons(piece: seq<char>, pieces: seq<seq<char>>)
    ensures Flatten([piece] + pieces) == piece + Flatten(pieces)
  {
    assert ([piece] + pieces)[1..] == pieces;
  }

  lemma Reassemble(stream: seq<char>, i: nat, more: seq<char>)
    requires i < |stream|
    ensures stream[..i + 1] + (stream[i + 1..] + more) == stream + more
  {
  }

  /** The packets of a delimited stream concatenate back to it, the missing end of the last included. */
  lemma {:induction false} PacketsConcatenate(stream: seq<char>)
    requires Delimited(stream)
    ensures Flatten(Packets(stream)) == stream + Missing(stream)
    decreases |stream|
  {
    if stream == [] {
      EmptyMissesNothing();
    } else {
      hide Missing, DropCr, Delimited, Packets, Flatten;
      var i := FirstLf(stream);
      if i == -1 {
        RestIsCompleted(stream);
        PacketsLast(stream);
        FlattenCons(stream + Missing(stream), []);
        NoPieces();
        assert [stream + Missing(stream)] + [] == [stream + Missing(stream)];
      } else {
        var rest := stream[i + 1..];
        DelimitedTail(stream, i);
        LineIsWhole(stream, i);
        MissingOfTail(stream, i);
        PacketsStep(stream, i);
        PacketsConcatenate(rest);
        FlattenCons(stream[..i + 1], Packets(rest));
        Reassemble(stream, i, Missing(stream));
      }
    }
  }

  lemma NoPieces()
    ensures Flatten([]) == []
  {
  }

  lemma EmptyMissesNothing()
    ensures Missing([]) == []
  {
  }

  /** The next line, its line feed included, fits a buffer of the given size; an unterminated rest must
      leave room to notice the end of the stream. False when there is no next line. */
  predicate FirstFits(stream: seq<char>, size: nat) {
    stream != [] && if LF in stream then FirstLf(stream) + 1 <= size else |stream| < size
  }

  /** Every line fits. */
  predicate Fits(stream: seq<char>, size: nat)
    decreases |stream|
  {
    stream == [] || (FirstFits(stream, size) && (LF in stream ==> Fits(stream[FirstLf(stream) + 1..], size)))
  }

  /** The packets up to the first line that does not fit. */
  function FittingPackets(stream: seq<char>, size: nat): seq<seq<char>>
    decreases |stream|
  {
    if !FirstFits(stream, size) then []
    else if LF !in stream then [DropCr(stream) + CRLF]
    else [DropCr(stream[..FirstLf(stream)]) + CRLF] + FittingPackets(stream[FirstLf(stream) + 1..], size)
  }

  /** They are the first of the stream's packets, and all of them exactly when every line fits. */
  lemma {:induction false} FittingPacketsAreFirst(stream: seq<char>, size: nat)
    ensures FittingPackets(stream, size) <= Packets(stream)
    ensures FittingPackets(stream, size) == Packets(stream) <==> Fits(stream, size)
    decreases |stream|
  {
    hide FirstLf, DropCr;
    if FirstFits(stream, size) && LF in stream {
      var rest := stream[FirstLf(stream) + 1..];
      FittingPacketsAreFirst(rest, size);
      var packet := DropCr(stream[..FirstLf(stream)]) + CRLF;
      assert ([packet] + FittingPackets(rest, size))[1..] == FittingPackets(rest, size);
      assert ([packet] + Packets(rest))[1..] == Packets(rest);
    }
  }

  lemma {:induction false} ShortFits(stream: seq<char>, size: nat)
    requires |stream| < size
    ensures Fits(stream, size)
    decreases |stream|
  {
    if LF in stream {
      ShortFits(stream[FirstLf(stream) + 1..], size);
    }
  }

  lemma FirstLfIs(s: seq<char>, i: nat)
    requires i < |s| && s[i] == LF && forall q :: 0 <= q < i ==> s[q] != LF
    ensures FirstLf(s) == i
  {
    hide FirstLf;
    var j := FirstLf(s);
    assert forall q :: 0 <= q < j ==> s[..j][q] == s[q];
  }

  lemma FirstLfOfPrefix(s: seq<char>, t: seq<char>)
    ensures LF in s ==> FirstLf(s + t) == FirstLf(s)
    ensures LF !in s ==> FirstLf(s + t) == -1 || FirstLf(s + t) >= |s|
  {
    hide FirstLf;
    assert forall q :: 0 <= q < |s| ==> (s + t)[q] == s[q];
    if LF in s {
      var i := FirstLf(s);
      assert forall q :: 0 <= q < i ==> s[..i][q] == s[q];
      FirstLfIs(s + t, i);
    }
  }

  /** What append(token, CR, LF) does to the buffer the token is a slice of: it writes in place when
      the capacity allows. The token ends at tokenEnd. */
  function AfterAppend(buffer: seq<char>, tokenEnd: nat): seq<char>
    requires tokenEnd <= |buffer|
  {
    if tokenEnd + 2 <= |buffer| then buffer[tokenEnd := CR][tokenEnd + 1 := LF] else buffer
  }

  /** The in-place append leaves the unread bytes [start, end) alone exactly when the line ended in
      CRLF, or nothing is unread, or the byte after a bare line feed is itself a line feed. */
  lemma AppendIsHarmless(buffer: seq<char>, tokenEnd: nat, start: nat, end: nat)
    requires tokenEnd + 1 <= start <= tokenEnd + 2 && start <= end <= |buffer|
    ensures AfterAppend(buffer, tokenEnd)[start..end] == buffer[start..end]
       <==> start == tokenEnd + 2 || start == end || buffer[start] == LF
  {
    var after := AfterAppend(buffer, tokenEnd);
    if start == tokenEnd + 1 && start < end {
      assert after[start..end][0] == LF && buffer[start..end][0] == buffer[start];
      assert after[start..end][1..] == buffer[start..end][1..];
    }
  }

  /** A line ended by a bare line feed corrupts the first byte of the next one. */
  lemma BareLineFeedCorrupts()
    ensures AfterAppend("A\nBC", 1)[2..] == "\nC"
    ensures !Delimited("A\nBC")
  {
    var stream := "A\nBC";
    assert stream[1] == LF && stream[0] != CR;
  }

  /** Unread bytes whose first was overwritten. */
  function Spoilt(rest: seq<char>): seq<char> {
    if rest == [] then [] else [LF] + rest[1..]
  }

  /** What is unread once the first line has become a packet, when the unread bytes are in the buffer: a
      bare line feed costs the next byte. */
  function Overwritten(stream: seq<char>): seq<char>
    requires LF in stream
  {
    var i := FirstLf(stream);
    var rest := stream[i + 1..];
    if i > 0 && stream[i - 1] == CR then rest else Spoilt(rest)
  }

  /** The packets when a single read brings the whole stream into the buffer. */
  function OneRead(stream: seq<char>): seq<seq<char>>
    decreases |stream|
  {
    if stream == [] then []
    else if LF !in stream then [DropCr(stream) + CRLF]
    else [DropCr(stream[..FirstLf(stream)]) + CRLF] + OneRead(Overwritten(stream))
  }

  /** The line feed at i follows a carriage return, or is the last byte, or is followed by another line
      feed or by a carriage return that is the last byte. */
  predicate LfIsHarmless(stream: seq<char>, i: nat)
    requires i < |stream|
  {
    || (i > 0 && stream[i - 1] == CR)
    || i + 1 == |stream|
    || stream[i + 1] == LF
    || (stream[i + 1] == CR && i + 2 == |stream|)
  }

  /** Every line feed is harmless. */
  predicate Harmless(stream: seq<char>) {
    forall i :: 0 <= i < |stream| && stream[i] == LF ==> LfIsHarmless(stream, i)
  }

  lemma DelimitedIsHarmless(stream: seq<char>)
    requires Delimited(stream)
    ensures Harmless(stream)
  {
  }

  lemma HarmlessShifts(stream: seq<char>, i: nat, k: nat)
    requires i < |stream| && stream[i] == LF && i + 1 + k < |stream|
    ensures LfIsHarmless(stream[i + 1..], k) <==> LfIsHarmless(stream, i + 1 + k)
  {
  }

  /** A stream is harmless when its first line feed is and the rest is. */
  lemma HarmlessStep(stream: seq<char>, i: nat)
    requires i < |stream| && stream[i] == LF && LF !in stream[..i]
    ensures Harmless(stream) <==> LfIsHarmless(stream, i) && Harmless(stream[i + 1..])
  {
    hide LfIsHarmless;
    var rest := stream[i + 1..];
    forall k | 0 <= k < |rest|
      ensures rest[k] == stream[i + 1 + k] && (LfIsHarmless(rest, k) <==> LfIsHarmless(stream, i + 1 + k))
    {
      HarmlessShifts(stream, i, k);
    }
    assert forall q :: 0 <= q < i ==> stream[..i][q] == stream[q];
    if LfIsHarmless(stream, i) && Harmless(rest) {
      forall q | 0 <= q < |stream| && stream[q] == LF ensures LfIsHarmless(stream, q) {
        if q > i {
          assert rest[q - i - 1] == LF;
        }
      }
    }
  }

  lemma NoLfIsHarmless(stream: seq<char>)
    requires LF !in stream
    ensures Harmless(stream)
  {
  }

  function EmptyPackets(n: nat): seq<seq<char>> {
    seq(n, _ => CRLF)
  }

  lemma EmptyLine(stream: seq<char>)
    ensures DropCr(stream[..0]) + CRLF == CRLF
  {
    assert stream[..0] == [];
  }

  lemma NothingRead()
    ensures OneRead([]) == []
  {
  }

  /** After a bare line feed was written over a byte, each byte that remains becomes an empty packet. */
  lemma {:induction false} Cascade(stream: seq<char>)
    requires stream != [] && stream[0] == LF
    ensures OneRead(stream) == EmptyPackets(|stream|)
    decreases |stream|
  {
    var rest := stream[1..];
    FirstLfIs(stream, 0);
    EmptyLine(stream);
    if rest != [] {
      Cascade([LF] + rest[1..]);
    } else {
      NothingRead();
    }
    hide FirstLf, DropCr, OneRead;
    assert [CRLF] + EmptyPackets(|rest|) == EmptyPackets(|stream|);
  }

  /** A bare line feed destroys all that was read with it: the line before it arrives, and of what follows
      every byte becomes an empty packet. */
  lemma BareLineFeedDestroys(stream: seq<char>)
    requires LF in stream
    requires var i := FirstLf(stream); i == 0 || stream[i - 1] != CR
    ensures var i := FirstLf(stream);
      OneRead(stream) == [stream[..i] + CRLF] + EmptyPackets(|stream[i + 1..]|)
  {
    hide *;
    BareLine(stream);
    Destroyed(stream[FirstLf(stream) + 1..]);
  }

  lemma Destroyed(rest: seq<char>)
    ensures OneRead(Spoilt(rest)) == EmptyPackets(|rest|)
  {
    if rest != [] {
      Cascade([LF] + rest[1..]);
    } else {
      NothingRead();
    }
  }

  lemma BareLine(stream: seq<char>)
    requires LF in stream
    requires var i := FirstLf(stream); i == 0 || stream[i - 1] != CR
    ensures var i := FirstLf(stream);
      OneRead(stream) == [stream[..i] + CRLF] + OneRead(Spoilt(stream[i + 1..]))
  {
    hide FirstLf;
    var i := FirstLf(stream);
    assert i > 0 ==> stream[..i][i - 1] == stream[i - 1];
    assert DropCr(stream[..i]) == stream[..i];
  }

  /** A stream has no more packets than bytes, and fewer when its first line has two. */
  lemma {:induction false} FewPackets(stream: seq<char>)
    ensures |Packets(stream)| <= |stream|
    ensures |stream| >= 2 && stream[0] != LF ==> |Packets(stream)| < |stream|
    decreases |stream|
  {
    hide DropCr;
    if stream != [] && FirstLf(stream) != -1 {
      FewPackets(stream[FirstLf(stream) + 1..]);
    }
  }

  lemma SamePackets(packet: seq<char>, a: seq<seq<char>>, b: seq<seq<char>>)
    ensures [packet] + a == [packet] + b <==> a == b
  {
    assert ([packet] + a)[1..] == a && ([packet] + b)[1..] == b;
  }

  /** An overwritten byte goes unnoticed only when it is a line feed or a final carriage return. */
  lemma OverwrittenShows(rest: seq<char>)
    requires rest != [] && rest[0] != LF
    ensures OneRead(Spoilt(rest)) == Packets(rest) <==> rest == [CR]
  {
    Destroyed(rest);
    FewPackets(rest);
    if |rest| == 1 {
      PacketsLast(rest);
      assert EmptyPackets(1) == [CRLF];
      assert rest == [rest[0]];
      if rest[0] != CR {
        assert (rest + CRLF)[0] == rest[0];
      }
    }
  }

  /** A stream that arrives in one read yields exactly its lines precisely when it is harmless. */
  lemma {:induction false} OneReadExactly(stream: seq<char>)
    ensures OneRead(stream) == Packets(stream) <==> Harmless(stream)
    decreases |stream|
  {
    if LF !in stream {
      NoLfIsHarmless(stream);
    } else {
      var i := FirstLf(stream);
      var rest := stream[i + 1..];
      HarmlessStep(stream, i);
      SamePackets(DropCr(stream[..i]) + CRLF, OneRead(Overwritten(stream)), Packets(rest));
      OneReadExactly(rest);
      hide FirstLf, DropCr, Harmless;
      if Overwritten(stream) != rest {
        RestIsHarmless(rest);
        OverwrittenShows(rest);
      }
      assert OneRead(stream) == Packets(stream) <==> OneRead(Overwritten(stream)) == Packets(rest);
    }
  }

  lemma RestIsHarmless(rest: seq<char>)
    requires rest != []
    ensures rest == [CR] ==> Harmless(rest)
    ensures rest[0] == LF ==> Spoilt(rest) == rest
  {
  }

  lemma DropCrIsPrefix(line: seq<char>)
    ensures DropCr(line) == line[..|DropCr(line)|] && |DropCr(line)| <= |line|
  {
  }

  /** The next token of a stream and what remains of it. */
  ghost predicate IsToken(stream: seq<char>, token: seq<char>, rest: seq<char>) {
    if LF in stream then token == DropCr(stream[..FirstLf(stream)]) && rest == stream[FirstLf(stream) + 1..]
    else stream != [] && token == DropCr(stream) && rest == []
  }

  lemma TokenOfWindow(window: seq<char>, more: seq<char>, line: nat)
    requires line < |window| && FirstLf(window) == line
    ensures LF in window + more && FirstLf(window + more) == line
    ensures IsToken(window + more, DropCr(window[..line]), window[line + 1..] + more)
  {
    FirstLfOfPrefix(window, more);
    hide FirstLf, DropCr;
    assert (window + more)[line] == LF;
    assert (window + more)[..line] == window[..line];
    assert (window + more)[line + 1..] == window[line + 1..] + more;
  }

  /** What a scan of `stream` leaves: the token is the slice [from, to) just before the unread bytes
      [start, end), and only an unterminated rest is followed by nothing. */
  ghost predicate IsScanned(buffer: seq<char>, start: nat, end: nat, more: seq<char>,
                            stream: seq<char>, from: nat, to: nat) {
    && from <= to <= |buffer| && start <= end <= |buffer|
    && IsToken(stream, buffer[from..to], buffer[start..end] + more)
    && if LF in stream then start == from + FirstLf(stream) + 1 else start == end
  }

  /** The token of a line found in the unread part [start, end) of a buffer. */
  lemma SliceToken(buffer: seq<char>, start: nat, end: nat, more: seq<char>, line: nat)
    requires start + line < end <= |buffer| && FirstLf(buffer[start..end]) == line
    ensures IsScanned(buffer, start + line + 1, end, more, buffer[start..end] + more,
                      start, start + |DropCr(buffer[start..start + line])|)
  {
    var window, text := buffer[start..end], buffer[start..start + line];
    FirstLfOfPrefix(window, more);
    TokenOfWindow(window, more, line);
    DropCrIsPrefix(text);
    hide FirstLf, DropCr, IsToken;
    assert window[..line] == text && window[line + 1..] == buffer[start + line + 1..end];
    assert buffer[start..start + |DropCr(text)|] == text[..|DropCr(text)|];
  }

  lemma OverwrittenIs(stream: seq<char>, token: seq<char>, rest: seq<char>)
    requires LF in stream && IsToken(stream, token, rest)
    ensures var i := FirstLf(stream);
      Overwritten(stream) == if i > 0 && stream[i - 1] == CR then rest else Spoilt(rest)
  {
  }

  lemma SpoiltJoins(part: seq<char>, more: seq<char>)
    requires part != []
    ensures Spoilt(part) + more == Spoilt(part + more)
  {
  }

  /** The append in place costs the byte after a bare line feed if it is unread. */
  lemma LeftIs(buffer: seq<char>, to: nat, start: nat, end: nat, more: seq<char>)
    requires to + 1 <= start <= to + 2 && start <= end <= |buffer|
    ensures AfterAppend(buffer, to)[start..end] + more
         == if start == to + 2 || start == end then buffer[start..end] + more
            else Spoilt(buffer[start..end] + more)
  {
    if start == to + 1 && start < end {
      SpoiltJoins(buffer[start..end], more);
      assert AfterAppend(buffer, to)[start..end] == Spoilt(buffer[start..end]);
      hide AfterAppend, Spoilt;
    } else {
      AppendIsHarmless(buffer, to, start, end);
      hide AfterAppend, Spoilt;
    }
  }

  /** What the append that completes a token leaves unread. */
  lemma AppendStep(buffer: seq<char>, start: nat, end: nat, more: seq<char>, stream: seq<char>, from: nat, to: nat)
    requires IsScanned(buffer, start, end, more, stream, from, to)
    ensures LeftBy(buffer, start, end, more, stream, to)
  {
    if LF in stream {
      TokenLength(stream, buffer[from..to], buffer[start..end] + more);
      assert |buffer[from..to]| == to - from;
      OverwrittenIs(stream, buffer[from..to], buffer[start..end] + more);
      hide FirstLf, DropCr, Overwritten, IsToken, AfterAppend;
      LeftIs(buffer, to, start, end, more);
    }
  }

  /** The bytes still unread are the rest of the stream, or the rest with its first byte overwritten; they
      are the latter when nothing is left to read. */
  ghost predicate LeftBy(buffer: seq<char>, start: nat, end: nat, more: seq<char>, stream: seq<char>, to: nat)
    requires start <= end <= |buffer| && to <= |buffer|
  {
    var left := AfterAppend(buffer, to)[start..end] + more;
    && (left == buffer[start..end] + more || (LF in stream && |buffer| >= 2 && left == Overwritten(stream)))
    && (more == [] && LF in stream ==> left == Overwritten(stream))
  }

  /** A line's token is the line without its line feed and the carriage return before it. */
  lemma TokenLength(stream: seq<char>, token: seq<char>, rest: seq<char>)
    requires LF in stream && IsToken(stream, token, rest)
    ensures var i := FirstLf(stream);
      |token| == if i > 0 && stream[i - 1] == CR then i - 1 else i
  {
    hide FirstLf;
    var i := FirstLf(stream);
    if i > 0 {
      assert stream[..i][i - 1] == stream[i - 1];
    }
  }

  /** The packet is the first of the stream's fitting packets and `left` yields the others. */
  ghost predicate IsNext(stream: seq<char>, packet: seq<char>, left: seq<char>, size: nat) {
    && FittingPackets(stream, size) == [packet] + FittingPackets(left, size)
    && Harmless(left)
  }

  /** The packet is the first of those of one read and `left` yields the others. */
  ghost predicate IsNextOfOne(stream: seq<char>, packet: seq<char>, left: seq<char>) {
    OneRead(stream) == [packet] + OneRead(left)
  }

  lemma TokenIsNext(stream: seq<char>, token: seq<char>, rest: seq<char>, size: nat)
    requires Harmless(stream) && FirstFits(stream, size) && IsToken(stream, token, rest)
    ensures IsNext(stream, token + CRLF, rest, size)
  {
    if LF in stream {
      HarmlessStep(stream, FirstLf(stream));
    } else {
      assert FittingPackets([], size) == [];
    }
    hide FirstLf, DropCr;
  }

  /** The overwritten byte of a harmless stream goes unnoticed. */
  lemma OverwrittenIsNext(stream: seq<char>, token: seq<char>, rest: seq<char>, size: nat)
    requires Harmless(stream) && FirstFits(stream, size) && IsToken(stream, token, rest)
    requires LF in stream && size >= 2
    ensures IsNext(stream, token + CRLF, Overwritten(stream), size)
  {
    var i := FirstLf(stream);
    TokenIsNext(stream, token, rest, size);
    LoneBytes(size);
    hide FirstLf, FittingPackets;
    assert LfIsHarmless(stream, i);
    if Overwritten(stream) != rest {
      assert rest[0] == stream[i + 1];
      if rest[0] == LF {
        RestIsHarmless(rest);
      } else {
        assert rest == [CR];
        assert Overwritten(stream) == [LF];
      }
    }
  }

  lemma LoneBytes(size: nat)
    requires size >= 2
    ensures FittingPackets([CR], size) == [CRLF] && FittingPackets([LF], size) == [CRLF]
  {
    assert FittingPackets([], size) == [];
    EmptyLine([LF]);
    FirstLfIs([LF], 0);
    assert [LF][1..] == [];
    PacketsLast([CR]);
    assert DropCr([CR]) == [];
    assert FittingPackets([LF], size) == [CRLF] + [];
  }

  lemma TokenIsNextOfOne(stream: seq<char>, token: seq<char>, rest: seq<char>)
    requires IsToken(stream, token, rest)
    ensures IsNextOfOne(stream, token + CRLF, if LF in stream then Overwritten(stream) else rest)
  {
    hide FirstLf, DropCr;
    if LF !in stream {
      NothingRead();
    }
  }

  lemma NothingIsLeft(stream: seq<char>, size: nat)
    requires |stream| < size && !FirstFits(stream, size)
    ensures OneRead(stream) == []
  {
  }

  /** One line becomes one packet: on a harmless stream the next fitting one whatever is still to be read,
      and the next of one read when nothing is. */
  lemma AppendIsNext(buffer: seq<char>, start: nat, end: nat, more: seq<char>, stream: seq<char>, from: nat, to: nat)
    requires IsScanned(buffer, start, end, more, stream, from, to) && FirstFits(stream, |buffer|)
    ensures var left := AfterAppend(buffer, to)[start..end] + more;
      && (Harmless(stream) ==> IsNext(stream, buffer[from..to] + CRLF, left, |buffer|))
      && (more == [] ==> IsNextOfOne(stream, buffer[from..to] + CRLF, left))
  {
    AppendStep(buffer, start, end, more, stream, from, to);
    var token, rest := buffer[from..to], buffer[start..end] + more;
    hide FirstLf, DropCr, Harmless, FirstFits, IsNext, IsNextOfOne, Overwritten, AfterAppend;
    TokenIsNextOfOne(stream, token, rest);
    if Harmless(stream) {
      TokenIsNext(stream, token, rest, |buffer|);
      if LF in stream && |buffer| >= 2 {
        OverwrittenIsNext(stream, token, rest, |buffer|);
      }
    }
  }

  lemma NoFittingPackets(stream: seq<char>, size: nat)
    requires !FirstFits(stream, size)
    ensures FittingPackets(stream, size) == []
  {
  }

  /** The bytes read join those that were buffered. */
  lemma ReadJoins(before: seq<char>, after: seq<char>, start: nat, end: nat, pending: seq<char>, n: nat)
    requires start <= end && end + n <= |before| == |after| && n <= |pending|
    requires forall q :: 0 <= q < end ==> after[q] == before[q]
    requires forall q :: 0 <= q < n ==> after[end + q] == pending[q]
    ensures after[start..end + n] + pending[n..] == before[start..end] + pending
  {
    assert after[start..end] == before[start..end];
    assert after[end..end + n] == pending[..n];
    assert after[start..end + n] == after[start..end] + after[end..end + n];
    assert pending == pending[..n] + pending[n..];
  }

  /** bufio.Scanner reading lines from a connection into a fixed buffer. `pending` is what the peer has
      sent and the scanner has not read. An eager connection fills each read as far as it can; another
      may hand over as little as a byte. */
  class Scanner {
    const buffer: array<char>
    var start: nat
    var end: nat
    var eof: bool
    var pending: seq<char>
    const eager: bool

    ghost predicate Valid()
      reads this
    {
      start <= end <= buffer.Length && (eof ==> pending == [] && end < buffer.Length)
    }

    /** Everything not yet scanned. */
    ghost function Unread(): seq<char>
      reads this, buffer
      requires Valid()
    {
      buffer[start..end] + pending
    }

    /** Nothing more is to be read than fits the buffer at once, and none of it is left out. */
    ghost predicate AtOnce()
      reads this
    {
      eager && end + |pending| < buffer.Length && (pending == [] || start == end)
    }

    constructor (size: nat, stream: seq<char>, eager: bool)
      ensures Valid() && fresh(buffer) && buffer.Length == size && this.eager == eager
      ensures Unread() == stream && !eof
      ensures eager && |stream| < size ==> AtOnce()
    {
      this.eager := eager;
      buffer := new char[size](_ => '\0');
      start, end, eof, pending := 0, 0, false, stream;
    }

    /** Move the unread bytes to the front of the buffer. */
    method Shift()
      requires Valid()
      modifies this`start, this`end, buffer
      ensures Valid() && start == 0 && end == old(end) - old(start)
      ensures Unread() == old(Unread())
      ensures old(AtOnce()) ==> AtOnce()
    {
      var n := end - start;
      forall k | 0 <= k < n {
        buffer[k] := buffer[start + k];
      }
      assert buffer[0..n] == old(buffer[start..end]);
      start, end := 0, n;
    }

    /** One read of the connection: some of the pending bytes, or the end of the stream. */
    method Fill()
      requires Valid() && !eof && end < buffer.Length
      modifies this`end, this`eof, this`pending, buffer
      ensures Valid() && start == old(start)
      ensures Unread() == old(Unread())
      ensures if eof then pending == old(pending) else |pending| < |old(pending)|
      ensures old(AtOnce()) ==> AtOnce()
    {
      if pending == [] {
        eof := true;
        return;
      }
      var most := if |pending| <= buffer.Length - end then |pending| else buffer.Length - end;
      var n :| 0 < n <= most && (eager ==> n == most);
      forall k | 0 <= k < n {
        buffer[end + k] := pending[k];
      }
      ReadJoins(old(buffer[..]), buffer[..], start, end, pending, n);
      end, pending := end + n, pending[n..];
    }

    ghost predicate Scanned(stream: seq<char>, from: nat, to: nat)
      reads this, buffer
    {
      IsScanned(buffer[..], start, end, pending, stream, from, to)
    }

    /** The attempt to cut a token from the buffered bytes. */
    method Cut() returns (more: bool, from: nat, to: nat)
      requires Valid()
      modifies this`start
      ensures Valid()
      ensures more ==> Scanned(old(Unread()), from, to)
      ensures more ==> FirstFits(old(Unread()), buffer.Length)
      ensures old(AtOnce()) ==> AtOnce() && (more ==> pending == [])
      ensures !more ==> start == old(start) && LF !in buffer[start..end] && (eof ==> Unread() == [])
    {
      hide FirstLf, DropCr, FirstFits, IsScanned, Scanned;
      if end == start {
        return false, 0, 0;
      }
      var line := FirstLf(buffer[start..end]);
      if line != -1 {
        more, from, to := true, start, start + |DropCr(buffer[start..start + line])|;
        LineFits(line);
        LineIsScanned(line);
        Skip(start + line + 1, Unread(), from, to);
      } else if eof {
        more, from, to := true, start, start + |DropCr(buffer[start..end])|;
        RestFits();
        RestIsScanned();
        Skip(end, Unread(), from, to);
      } else {
        return false, 0, 0;
      }
    }

    /** Step past a token that was found. */
    method Skip(next: nat, ghost stream: seq<char>, ghost from: nat, ghost to: nat)
      requires Valid() && next <= end && IsScanned(buffer[..], next, end, pending, stream, from, to)
      modifies this`start
      ensures Valid() && Scanned(stream, from, to) && start == next
    {
      hide IsScanned;
      start := next;
    }

    lemma LineIsScanned(line: nat)
      requires Valid() && start + line < end && FirstLf(buffer[start..end]) == line
      ensures IsScanned(buffer[..], start + line + 1, end, pending, Unread(), start, start + |DropCr(buffer[start..start + line])|)
    {
      hide FirstLf, DropCr, IsScanned;
      SliceToken(buffer[..], start, end, pending, line);
    }

    lemma RestIsScanned()
      requires Valid() && eof && start < end && LF !in buffer[start..end]
      ensures IsScanned(buffer[..], end, end, pending, Unread(), start, start + |DropCr(buffer[start..end])|)
    {
      assert Unread() == buffer[start..end];
      DropCrIsPrefix(buffer[start..end]);
    }

    lemma LineFits(line: nat)
      requires Valid() && start + line < end && FirstLf(buffer[start..end]) == line
      ensures FirstFits(Unread(), buffer.Length)
    {
      FirstLfOfPrefix(buffer[start..end], pending);
      hide FirstLf;
      assert Unread()[line] == LF;
    }

    lemma RestFits()
      requires Valid() && eof && start < end && LF !in buffer[start..end]
      ensures FirstFits(Unread(), buffer.Length)
    {
      assert Unread() == buffer[start..end];
    }

    /** A full buffer without a line feed: the line is too long. */
    lemma FullBuffer()
      requires Valid() && start == 0 && end == buffer.Length && LF !in buffer[start..end]
      ensures !FirstFits(Unread(), buffer.Length)
    {
      FirstLfOfPrefix(buffer[start..end], pending);
    }

    lemma NothingFits()
      requires Valid() && Unread() == []
      ensures !FirstFits(Unread(), buffer.Length)
    {
    }

    /** scanner.Scan with ScanLines: the next line without its end, as the slice [from, to) of the
        buffer. True exactly when there is a next line and it fits. */
    method Scan() returns (more: bool, from: nat, to: nat)
      requires Valid()
      modifies this`start, this`end, this`eof, this`pending, buffer
      ensures Valid()
      ensures more ==> Scanned(old(Unread()), from, to)
      ensures more <==> FirstFits(old(Unread()), buffer.Length)
      ensures old(AtOnce()) ==> AtOnce() && (more ==> pending == [])
    {
      hide FirstFits, Scanned, FirstLf;
      while true
        modifies this`start, this`end, this`eof, this`pending, buffer
        invariant Valid() && Unread() == old(Unread())
        invariant old(AtOnce()) ==> AtOnce()
        decreases |pending|, !eof
      {
        more, from, to := Cut();
        if more {
          return;
        }
        if eof {
          NothingFits();
          return;
        }
        if start > 0 && (end == buffer.Length || start > buffer.Length / 2) {
          Shift();
        }
        if end == buffer.Length {
          FullBuffer();
          return;
        }
        Fill();
      }
    }

    /** append(packet, CR, LF): in place while the buffer has room behind the token, else a copy. */
    method AppendDelimiter(from: nat, to: nat) returns (packet: seq<char>)
      requires from <= to <= buffer.Length
      modifies buffer
      ensures packet == old(buffer[from..to]) + CRLF
      ensures buffer[..] == AfterAppend(old(buffer[..]), to)
    {
      if to + 2 <= buffer.Length {
        buffer[to] := CR;
        buffer[to + 1] := LF;
        packet := buffer[from..to + 2];
      } else {
        packet := buffer[from..to] + CRLF;
      }
    }

    /** One round of the event loop: the next line, if it fits, becomes a packet. On a harmless stream it is
        the next fitting packet, whatever the sizes of the reads. */
    method NextPacket() returns (more: bool, packet: seq<char>)
      requires Valid()
      modifies this`start, this`end, this`eof, this`pending, buffer
      ensures Valid()
      ensures more <==> FirstFits(old(Unread()), buffer.Length)
      ensures more ==> |Unread()| < |old(Unread())|
      ensures more && Harmless(old(Unread())) ==> IsNext(old(Unread()), packet, Unread(), buffer.Length)
      ensures old(AtOnce()) ==> AtOnce() && (more ==> IsNextOfOne(old(Unread()), packet, Unread()))
    {
      ghost var stream := Unread();
      var from, to;
      more, from, to := Scan();
      packet := [];
      if more {
        AppendIsNext(buffer[..], start, end, pending, stream, from, to);
        ScannedIsShorter(stream, from, to);
        hide Harmless, FirstFits, Scanned, IsNext, IsNextOfOne, IsToken, AfterAppend;
        packet := AppendDelimiter(from, to);
      }
    }

    lemma ScannedIsShorter(stream: seq<char>, from: nat, to: nat)
      requires Valid() && Scanned(stream, from, to)
      ensures |Unread()| < |stream|
    {
      hide FirstLf, DropCr;
    }

    lemma AtOnceIsShort()
      requires Valid() && AtOnce()
      ensures |Unread()| < buffer.Length
    {
    }

    /** The event loop. On a harmless stream, whatever the sizes of the reads, the packets handed to
        verifyPacket are exactly the stream's lines up to the first that does not fit the buffer. When all
        fit, as they do on a stream shorter than the buffer, they are all its lines, and those of a delimited
        stream concatenate back to it. From a single read of a stream shorter than the buffer come the
        packets of OneRead: exactly its lines if and only if it is harmless. */
    method EventLoop() returns (packets: seq<seq<char>>)
      requires Valid()
      modifies this`start, this`end, this`eof, this`pending, buffer
      ensures Harmless(old(Unread())) ==> packets == FittingPackets(old(Unread()), buffer.Length)
      ensures Harmless(old(Unread())) && Fits(old(Unread()), buffer.Length) ==> packets == Packets(old(Unread()))
      ensures Harmless(old(Unread())) && |old(Unread())| < buffer.Length ==> packets == Packets(old(Unread()))
      ensures Delimited(old(Unread())) && Fits(old(Unread()), buffer.Length) ==>
        Flatten(packets) == old(Unread()) + Missing(old(Unread()))
      ensures old(AtOnce()) ==> packets == OneRead(old(Unread()))
      ensures old(AtOnce()) ==> (packets == Packets(old(Unread())) <==> Harmless(old(Unread())))
    {
      hide Delimited, Harmless, Fits, Packets, Missing, Flatten, FirstFits, FittingPackets, OneRead, Valid, AtOnce, Unread;
      ghost var stream := Unread();
      FittingPacketsAreFirst(stream, buffer.Length);
      OneReadExactly(stream);
      if |stream| < buffer.Length {
        ShortFits(stream, buffer.Length);
      }
      if Delimited(stream) {
        PacketsConcatenate(stream);
        DelimitedIsHarmless(stream);
      }
      packets := [];
      while true
        modifies this`start, this`end, this`eof, this`pending, buffer
        invariant Valid()
        invariant Harmless(stream) ==> Harmless(Unread())
        invariant Harmless(stream) ==>
          packets + FittingPackets(Unread(), buffer.Length) == FittingPackets(stream, buffer.Length)
        invariant old(AtOnce()) ==> AtOnce() && packets + OneRead(Unread()) == OneRead(stream)
        decreases |Unread()|
      {
        ghost var unread := Unread();
        ghost var short := |unread| < buffer.Length;
        if old(AtOnce()) {
          AtOnceIsShort();
        }
        var more, packet := NextPacket();
        if !more {
          NoFittingPackets(unread, buffer.Length);
          if short {
            NothingIsLeft(unread, buffer.Length);
          }
          return;
        }
        assert packets + ([packet] + FittingPackets(Unread(), buffer.Length))
            == packets + [packet] + FittingPackets(Unread(), buffer.Length);
        assert packets + ([packet] + OneRead(Unread())) == packets + [packet] + OneRead(Unread());
        packets := packets + [packet];
      }
    }
  }
}
