/** The client authentication challenges (openaimp-fsd/fsd/vatsimauth.go). MD5 is a parameter: any
    function from byte strings to 16-byte digests. */
module Auth {
  import opened Fields
  import opened Packets
  import Effects
  import Routing

  const DIGEST_LENGTH := 16
  const KEY_LENGTH := 32

  type Digest = d: string | |d| == DIGEST_LENGTH && forall i :: 0 <= i < |d| ==> d[i] < 256 as char
    witness seq(DIGEST_LENGTH, _ => '\0')

  const ZERO: Digest := seq(DIGEST_LENGTH, _ => '\0')

  const KEYS: map<nat, string> := map[
    8464 := "945507c4c50222c34687e742729252e6",   // vSTARS
    10452 := "0ad74157c7f449c216bfed04f3af9fb9",  // vERAM
    24515 := "3424cbcebcca6fe95f973b350ff85cef",  // vatSys
    27095 := "3518a62c421937ffa46ac3316957da43",  // Euroscope
    33456 := "52d9343020e9c7d0c6b04b0cca20ad3b",  // swift
    35044 := "fe28334fb753cf0e3d19942197b9ce3e",  // vPilot
    48312 := "bc2eb1ef4d96709c683084055dd5e83f",  // TWRTrainer
    55538 := "ImuL1WbbhVuD8d3MuKpWn2rrLZRa9iVP",  // xPilot
    56862 := "3518a62c421937ffa46ac3316957da43"   // VRC
  ]

  /** Every key fills the 32-byte array it is copied to. */
  lemma KeysFill(clientId: nat)
    requires clientId in KEYS
    ensures |KEYS[clientId]| == KEY_LENGTH
  {
  }

  // ----- hexadecimal -----

  const HEX_DIGITS := "0123456789abcdef"

  function HexByte(c: char): (h: string)
    requires c < 256 as char
    ensures |h| == 2
  {
    [HEX_DIGITS[c as int / 16], HEX_DIGITS[c as int % 16]]
  }

  /** hex.Encode. */
  function Hex(d: string): (h: string)
    requires forall i :: 0 <= i < |d| ==> d[i] < 256 as char
    ensures |h| == 2 * |d|
  {
    if d == [] then [] else HexByte(d[0]) + Hex(d[1..])
  }

  lemma HexDigitsDiffer(i: nat, j: nat)
    requires i < 16 && j < 16 && HEX_DIGITS[i] == HEX_DIGITS[j]
    ensures i == j
  {
  }

  lemma {:induction false} HexIsInjective(d: string, e: string)
    requires forall i :: 0 <= i < |d| ==> d[i] < 256 as char
    requires forall i :: 0 <= i < |e| ==> e[i] < 256 as char
    requires Hex(d) == Hex(e)
    ensures d == e
  {
    if d == [] || e == [] {
    } else {
      var g, h := Hex(d), Hex(e);
      assert g[0] == h[0] && g[1] == h[1] && g[2..] == Hex(d[1..]) && h[2..] == Hex(e[1..]);
      HexDigitsDiffer(d[0] as int / 16, e[0] as int / 16);
      HexDigitsDiffer(d[0] as int % 16, e[0] as int % 16);
      HexIsInjective(d[1..], e[1..]);
      assert d == [d[0]] + d[1..] && e == [e[0]] + e[1..];
    }
  }

  /** The value of a lower-case hexadecimal digit; 16 for any other character. */
  function HexValue(c: char): nat {
    if '0' <= c <= '9' then c as nat - '0' as nat
    else if 'a' <= c <= 'f' then c as nat - 'a' as nat + 10
    else 16
  }

  /** Each byte is the two digits in its place, the higher first. */
  lemma {:induction false} HexIsExact(d: string, i: nat)
    requires forall k :: 0 <= k < |d| ==> d[k] < 256 as char
    requires i < |d|
    ensures var h := Hex(d);
      && HexValue(h[2 * i]) < 16 && HexValue(h[2 * i + 1]) < 16
      && d[i] as nat == 16 * HexValue(h[2 * i]) + HexValue(h[2 * i + 1])
  {
    if i == 0 {
      HexByteIsExact(d[0]);
    } else {
      HexIsExact(d[1..], i - 1);
    }
  }

  lemma HexByteIsExact(c: char)
    requires c < 256 as char
    ensures var h := HexByte(c); HexValue(h[0]) == c as nat / 16 && HexValue(h[1]) == c as nat % 16
  {
    HexDigit(c as nat / 16);
    HexDigit(c as nat % 16);
  }

  lemma HexDigit(n: nat)
    requires n < 16
    ensures HexValue(HEX_DIGITS[n]) == n
  {
  }

  // ----- the digest input -----

  /** The two halves of the challenge, swapped for an odd client id. */
  function Halves(clientId: nat, challenge: string): (string, string) {
    var c1, c2 := challenge[..|challenge| / 2], challenge[|challenge| / 2..];
    if clientId % 2 == 1 then (c2, c1) else (c1, c2)
  }

  /** The three pieces of the key and the two of the challenge, shuffled by the client id. */
  function DigestInput(clientId: nat, key: string, challenge: string): string
    requires |key| == KEY_LENGTH
  {
    var (c1, c2) := Halves(clientId, challenge);
    var s1, s2, s3 := key[..12], key[12..22], key[22..];
    if clientId % 3 == 0 then s1 + c1 + s2 + c2 + s3
    else if clientId % 3 == 1 then s2 + c1 + s3 + c2 + s1
    else s3 + c1 + s1 + c2 + s2
  }

  /** The digest input is the key, rotated by 0, 12 or 22 bytes, with the halves of the challenge inserted in
      two places, the second half first for an odd client id. */
  lemma DigestInputIsRotation(clientId: nat, key: string, challenge: string)
    requires |key| == KEY_LENGTH
    ensures
      var r := if clientId % 3 == 0 then 0 else if clientId % 3 == 1 then 12 else 22;
      var rotated := key[r..] + key[..r];
      var i, j := if clientId % 3 == 0 then 12 else 10, if clientId % 3 == 1 then 20 else 22;
      exists first, second ::
        && DigestInput(clientId, key, challenge) == rotated[..i] + first + rotated[i..j] + second + rotated[j..]
        && (if clientId % 2 == 1 then second + first == challenge && |second| == |challenge| / 2
            else first + second == challenge && |first| == |challenge| / 2)
  {
    var (c1, c2) := Halves(clientId, challenge);
    var n := |challenge| / 2;
    assert challenge == challenge[..n] + challenge[n..];
    var r := if clientId % 3 == 0 then 0 else if clientId % 3 == 1 then 12 else 22;
    var rotated := key[r..] + key[..r];
    var i, j := if clientId % 3 == 0 then 12 else 10, if clientId % 3 == 1 then 20 else 22;
    assert clientId % 3 == 0 ==> rotated[..i] == key[..12] && rotated[i..j] == key[12..22] && rotated[j..] == key[22..];
    assert clientId % 3 == 1 ==> rotated[..i] == key[12..22] && rotated[i..j] == key[22..] && rotated[j..] == key[..12];
    assert clientId % 3 == 2 ==> rotated[..i] == key[22..] && rotated[i..j] == key[..12] && rotated[j..] == key[12..22];
    assert DigestInput(clientId, key, challenge) == rotated[..i] + c1 + rotated[i..j] + c2 + rotated[j..];
  }

  /** Five pieces of known lengths are determined by their concatenation. */
  lemma PiecesAreDetermined(a: string, b: string, c: string, d: string, e: string,
                            a': string, b': string, c': string, d': string, e': string)
    requires |a| == |a'| && |b| == |b'| && |c| == |c'| && |d| == |d'|
    requires a + b + c + d + e == a' + b' + c' + d' + e'
    ensures a == a' && b == b' && c == c' && d == d' && e == e'
  {
    Cut(a + b + c + d, e, a' + b' + c' + d', e');
    Cut(a + b + c, d, a' + b' + c', d');
    Cut(a + b, c, a' + b', c');
    Cut(a, b, a', b');
  }

  lemma Cut(p: string, q: string, p': string, q': string)
    requires |p| == |p'| && p + q == p' + q'
    ensures p == p' && q == q'
  {
    assert p == (p + q)[..|p|] && q == (p + q)[|p|..];
    assert p' == (p' + q')[..|p|] && q' == (p' + q')[|p|..];
  }

  lemma HalvesAreDetermined(clientId: nat, challenge: string, challenge': string)
    requires Halves(clientId, challenge) == Halves(clientId, challenge')
    ensures challenge == challenge'
  {
    assert challenge == challenge[..|challenge| / 2] + challenge[|challenge| / 2..];
    assert challenge' == challenge'[..|challenge'| / 2] + challenge'[|challenge'| / 2..];
  }

  lemma KeyIsDetermined(key: string, key': string)
    requires |key| == KEY_LENGTH && |key'| == KEY_LENGTH
    requires key[..12] == key'[..12] && key[12..22] == key'[12..22] && key[22..] == key'[22..]
    ensures key == key'
  {
    assert key == key[..12] + key[12..22] + key[22..];
    assert key' == key'[..12] + key'[12..22] + key'[22..];
  }

  /** For a fixed client id the digest input determines the key and the challenge, of any length. */
  lemma DigestInputIsInjective(clientId: nat, key: string, challenge: string, key': string, challenge': string)
    requires |key| == KEY_LENGTH && |key'| == KEY_LENGTH
    requires DigestInput(clientId, key, challenge) == DigestInput(clientId, key', challenge')
    ensures key == key' && challenge == challenge'
  {
    var (c1, c2) := Halves(clientId, challenge);
    var (d1, d2) := Halves(clientId, challenge');
    assert |c1| == |d1| && |c2| == |d2|;
    var s1, s2, s3 := key[..12], key[12..22], key[22..];
    var t1, t2, t3 := key'[..12], key'[12..22], key'[22..];
    if clientId % 3 == 0 {
      PiecesAreDetermined(s1, c1, s2, c2, s3, t1, d1, t2, d2, t3);
    } else if clientId % 3 == 1 {
      PiecesAreDetermined(s2, c1, s3, c2, s1, t2, d1, t3, d2, t1);
    } else {
      PiecesAreDetermined(s3, c1, s1, c2, s2, t3, d1, t1, d2, t2);
    }
    HalvesAreDetermined(clientId, challenge, challenge');
    KeyIsDetermined(key, key');
  }

  // ----- the recurrence -----

  /** What determines a client's answers: its id and key, the challenge it logged in with, and the
      challenges asked since. */
  datatype Transcript = Transcript(clientId: nat, key: string, opening: string, asked: seq<string>)
  {
    predicate Keyed() {
      |key| == KEY_LENGTH
    }

    function Before(): Transcript
      requires asked != []
    {
      this.(asked := asked[..|asked| - 1])
    }
  }

  /** The state after the login: it never changes. */
  function First(md5: string -> Digest, t: Transcript): Digest
    requires t.Keyed()
  {
    md5(DigestInput(t.clientId, t.key, t.opening))
  }

  /** The current state after all the challenges. */
  function Current(md5: string -> Digest, t: Transcript): Digest
    requires t.Keyed()
    decreases |t.asked|, 1
  {
    if t.asked == [] then First(md5, t) else md5(Hex(First(md5, t)) + Answer(md5, t))
  }

  function AnswerInput(md5: string -> Digest, t: Transcript): string
    requires t.Keyed() && t.asked != []
    decreases |t.asked|, -1
  {
    DigestInput(t.clientId, Hex(Current(md5, t.Before())), t.asked[|t.asked| - 1])
  }

  /** The answer to the last challenge. */
  function Answer(md5: string -> Digest, t: Transcript): (answer: string)
    requires t.Keyed() && t.asked != []
    ensures |answer| == KEY_LENGTH
    decreases |t.asked|, 0
  {
    Hex(md5(AnswerInput(md5, t)))
  }

  /** All answers, in order. */
  function Answers(md5: string -> Digest, t: Transcript): (answers: seq<string>)
    requires t.Keyed()
    ensures |answers| == |t.asked|
    decreases |t.asked|
  {
    if t.asked == [] then [] else Answers(md5, t.Before()) + [Answer(md5, t)]
  }

  /** Everything hashed along the way. */
  function Hashed(md5: string -> Digest, t: Transcript): set<string>
    requires t.Keyed()
    decreases |t.asked|
  {
    if t.asked == [] then {DigestInput(t.clientId, t.key, t.opening)}
    else Hashed(md5, t.Before()) + {AnswerInput(md5, t), Hex(First(md5, t)) + Answer(md5, t)}
  }

  /** One more challenge: one more answer, and the state hashed from the first state and that answer. */
  lemma AskedOnce(md5: string -> Digest, t: Transcript, challenge: string)
    requires t.Keyed()
    ensures var next := t.(asked := t.asked + [challenge]);
      && next.Keyed() && First(md5, next) == First(md5, t)
      && Answers(md5, next) == Answers(md5, t) + [Answer(md5, next)]
      && Current(md5, next) == md5(Hex(First(md5, t)) + Answer(md5, next))
  {
    var next := t.(asked := t.asked + [challenge]);
    assert next.Before() == t;
    hide Answer, Hex;
  }

  ghost predicate Collide(md5: string -> Digest, xs: set<string>, ys: set<string>) {
    exists x, y :: x in xs && y in ys && x != y && md5(x) == md5(y)
  }

  lemma {:induction false} HashedFirst(md5: string -> Digest, t: Transcript)
    requires t.Keyed()
    ensures DigestInput(t.clientId, t.key, t.opening) in Hashed(md5, t)
    decreases |t.asked|
  {
    if t.asked != [] {
      HashedFirst(md5, t.Before());
    }
  }

  lemma {:induction false} CurrentDetermines(md5: string -> Digest, t: Transcript, t': Transcript)
    requires t.Keyed() && t'.Keyed() && t.clientId == t'.clientId && |t.asked| == |t'.asked|
    requires Current(md5, t) == Current(md5, t')
    ensures t == t' || Collide(md5, Hashed(md5, t), Hashed(md5, t'))
    decreases |t.asked|, 1
  {
    if t.asked == [] {
      if DigestInput(t.clientId, t.key, t.opening) == DigestInput(t'.clientId, t'.key, t'.opening) {
        DigestInputIsInjective(t.clientId, t.key, t.opening, t'.key, t'.opening);
      }
    } else {
      var x, y := Hex(First(md5, t)) + Answer(md5, t), Hex(First(md5, t')) + Answer(md5, t');
      assert x in Hashed(md5, t) && y in Hashed(md5, t');
      if x == y {
        Cut(Hex(First(md5, t)), Answer(md5, t), Hex(First(md5, t')), Answer(md5, t'));
        AnswerDetermines(md5, t, t');
      }
    }
  }

  /** One answer gives away the whole transcript: if two clients of the same kind give the same n-th
      answer, they had the same key, the same opening and the same n challenges, or two of the strings
      they hashed collide under MD5. */
  lemma {:induction false} AnswerDetermines(md5: string -> Digest, t: Transcript, t': Transcript)
    requires t.Keyed() && t'.Keyed() && t.clientId == t'.clientId && |t.asked| == |t'.asked| > 0
    requires Answer(md5, t) == Answer(md5, t')
    ensures t == t' || Collide(md5, Hashed(md5, t), Hashed(md5, t'))
    decreases |t.asked|, 0
  {
    var x, y := AnswerInput(md5, t), AnswerInput(md5, t');
    HexIsInjective(md5(x), md5(y));
    assert x in Hashed(md5, t) && y in Hashed(md5, t');
    if x == y {
      AnswerInputDetermines(md5, t, t');
      CurrentDetermines(md5, t.Before(), t'.Before());
      SameBefore(md5, t, t');
    }
  }

  lemma AnswerInputDetermines(md5: string -> Digest, t: Transcript, t': Transcript)
    requires t.Keyed() && t'.Keyed() && t.clientId == t'.clientId && t.asked != [] && t'.asked != []
    requires AnswerInput(md5, t) == AnswerInput(md5, t')
    ensures Current(md5, t.Before()) == Current(md5, t'.Before())
    ensures t.asked[|t.asked| - 1] == t'.asked[|t'.asked| - 1]
  {
    var d, e := Current(md5, t.Before()), Current(md5, t'.Before());
    hide Current;
    DigestInputIsInjective(t.clientId, Hex(d), t.asked[|t.asked| - 1], Hex(e), t'.asked[|t'.asked| - 1]);
    HexIsInjective(d, e);
  }

  lemma SameBefore(md5: string -> Digest, t: Transcript, t': Transcript)
    requires t.Keyed() && t'.Keyed() && t.asked != [] && t'.asked != []
    requires t.asked[|t.asked| - 1] == t'.asked[|t'.asked| - 1]
    requires t.Before() == t'.Before() || Collide(md5, Hashed(md5, t.Before()), Hashed(md5, t'.Before()))
    ensures t == t' || Collide(md5, Hashed(md5, t), Hashed(md5, t'))
  {
    if t.Before() == t'.Before() {
      assert t.asked == t.Before().asked + [t.asked[|t.asked| - 1]];
      assert t'.asked == t'.Before().asked + [t'.asked[|t'.asked| - 1]];
    } else {
      var x, y :| x in Hashed(md5, t.Before()) && y in Hashed(md5, t'.Before()) && x != y && md5(x) == md5(y);
      assert x in Hashed(md5, t) && y in Hashed(md5, t');
    }
  }

  // ----- the object -----

  class VatsimAuthState {
    const md5: string -> Digest
    var initial: Digest
    var current: Digest
    var clientId: nat
    ghost var transcript: Transcript
    ghost var answers: seq<string>

    constructor (md5: string -> Digest)
      ensures this.md5 == md5 && initial == ZERO && current == ZERO && clientId == 0
    {
      this.md5, initial, current, clientId := md5, ZERO, ZERO, 0;
    }

    /** The object is where the recurrence is after its transcript, and gave the recurrence's answers. */
    ghost predicate Follows()
      reads this
    {
      && transcript.Keyed() && transcript.clientId == clientId
      && initial == First(md5, transcript)
      && current == Current(md5, transcript)
      && answers == Answers(md5, transcript)
    }

    /** The appends of one round. */
    method RunObfuscationRound(key: string, challenge: string) returns (res: Digest)
      requires |key| == KEY_LENGTH
      ensures res == md5(DigestInput(clientId, key, challenge))
    {
      var c1, c2 := challenge[0..|challenge| / 2], challenge[|challenge| / 2..];
      if clientId % 2 == 1 {
        c1, c2 := c2, c1;
      }
      assert (c1, c2) == Halves(clientId, challenge);
      hide Halves;
      var s1, s2, s3 := key[..12], key[12..22], key[22..];
      var tmp := [];
      if clientId % 3 == 0 {
        tmp := tmp + s1;
        assert tmp == s1;
        tmp := tmp + c1;
        tmp := tmp + s2;
        tmp := tmp + c2;
        tmp := tmp + s3;
      } else if clientId % 3 == 1 {
        tmp := tmp + s2;
        assert tmp == s2;
        tmp := tmp + c1;
        tmp := tmp + s3;
        tmp := tmp + c2;
        tmp := tmp + s1;
      } else {
        tmp := tmp + s3;
        assert tmp == s3;
        tmp := tmp + c1;
        tmp := tmp + s1;
        tmp := tmp + c2;
        tmp := tmp + s2;
      }
      res := md5(tmp);
    }

    /** A known client starts its transcript; an unknown one is refused and nothing changes. */
    method Initialize(id: nat, challenge: string) returns (ok: bool)
      modifies this
      ensures ok == (id in KEYS)
      ensures ok ==> Follows() && transcript == Transcript(id, KEYS[id], challenge, []) && answers == []
      ensures !ok ==>
        && initial == old(initial) && current == old(current) && clientId == old(clientId)
        && transcript == old(transcript) && answers == old(answers)
    {
      if id !in KEYS {
        return false;
      }
      KeysFill(id);
      var key := KEYS[id];
      hide KEYS;
      clientId := id;
      initial := RunObfuscationRound(key, challenge);
      current := initial;
      transcript, answers := Transcript(id, key, challenge, []), [];
      ok := true;
    }

    method GetResponseForChallenge(challenge: string) returns (res: string)
      ensures |res| == KEY_LENGTH
      ensures Follows() ==>
        res == Answer(md5, transcript.(asked := transcript.asked + [challenge]))
    {
      var round := RunObfuscationRound(Hex(current), challenge);
      res := Hex(round);
      if Follows() {
        assert transcript.(asked := transcript.asked + [challenge]).Before() == transcript;
      }
    }

    method UpdateState(d: string)
      modifies this`current
      ensures current == md5(Hex(initial) + d)
    {
      current := md5(Hex(initial) + d);
    }

    /** The handler's two calls: the answer is the recurrence's next, the transcript grows by the
        challenge, and the initial state stays. */
    method Challenge(challenge: string) returns (res: string)
      requires Follows()
      modifies this
      ensures Follows() && clientId == old(clientId) && initial == old(initial)
      ensures transcript == old(transcript).(asked := old(transcript).asked + [challenge])
      ensures answers == old(answers) + [res]
    {
      hide Current, Answer, Answers, First, Hex, AnswerInput;
      ghost var before := transcript;
      AskedOnce(md5, before, challenge);
      res := GetResponseForChallenge(challenge);
      UpdateState(res);
      transcript, answers := before.(asked := before.asked + [challenge]), answers + [res];
    }
  }

  /** handleAuthChallenge: the reply to a challenge packet, or an error when the client logged in
      without a challenge. */
  method HandleAuthChallenge(state: VatsimAuthState, clientChallenge: string, callsign: string, packet: string)
      returns (reply: string)
    requires clientChallenge != "" ==> state.Follows()
    modifies state
    ensures clientChallenge == "" ==>
      && reply == Effects.ErrorPacket(UNAUTHORIZED_SOFTWARE_ERROR,
           Routing.NO_CHALLENGE)
      && state.initial == old(state.initial) && state.current == old(state.current)
      && state.clientId == old(state.clientId)
      && state.transcript == old(state.transcript) && state.answers == old(state.answers)
    ensures clientChallenge != "" ==>
      && state.Follows()
      && state.transcript == old(state.transcript).(asked := old(state.transcript).asked + [Field(packet, 2)])
      && state.answers != [] && state.answers[..|state.answers| - 1] == old(state.answers)
      && reply == "$ZRSERVER:" + callsign + ":" + state.answers[|state.answers| - 1] + CRLF
  {
    if clientChallenge == "" {
      reply := Effects.ErrorPacket(UNAUTHORIZED_SOFTWARE_ERROR,
        Routing.NO_CHALLENGE);
      return;
    }
    var challenge := GetField(packet, 2);
    var resp := state.Challenge(challenge);
    reply := "$ZRSERVER:" + callsign + ":" + resp + CRLF;
  }
}
