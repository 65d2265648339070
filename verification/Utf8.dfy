/**
 `String::from_utf8_lossy`: UTF-8 read with a replacement character for what is not well formed
 (Table 3-7 and "Substitution of Maximal Subparts" in section 3.9 of the Unicode Standard).

 Output is read chunk by chunk for the screen and all at once for the conditions of later steps.
 Here is exactly when the two agree.
 */
module Utf8 {
  import opened Wrappers
  import opened Text

  const REPLACEMENT: char := '\U{FFFD}'

  /** How many bytes a character starting with `lead` has, and zero if none starts with it. */
  function Width(lead: Byte): nat {
    if lead < 0x80 then 1
    else if lead < 0xC2 then 0
    else if lead < 0xE0 then 2
    else if lead < 0xF0 then 3
    else if lead < 0xF5 then 4
    else 0
  }

  predicate Continues(b: Byte) {
    0x80 <= b <= 0xBF
  }

  /** The second byte also keeps out overlong forms, surrogates and numbers past the last character. */
  predicate SecondFits(lead: Byte, b: Byte) {
    && Continues(b)
    && (lead == 0xE0 ==> b >= 0xA0)
    && (lead == 0xED ==> b <= 0x9F)
    && (lead == 0xF0 ==> b >= 0x90)
    && (lead == 0xF4 ==> b <= 0x8F)
  }

  /** The bytes that are read, or replaced, as one. */
  function Taken(s: seq<Byte>): (n: nat)
    requires s != []
    ensures 1 <= n <= |s| && (n == 1 || n <= Width(s[0]))
  {
    if |s| < 2 || Width(s[0]) < 2 || !SecondFits(s[0], s[1]) then 1
    else if |s| < 3 || Width(s[0]) < 3 || !Continues(s[2]) then 2
    else if |s| < 4 || Width(s[0]) < 4 || !Continues(s[3]) then 3
    else 4
  }

  predicate IsWhole(s: seq<Byte>)
    requires s != []
  {
    Taken(s) == Width(s[0])
  }

  /** The bits that are left without the markers of the first and the following bytes. */
  function CodePoint(s: seq<int>): int
    requires 1 <= |s| <= 4
  {
    if |s| == 1 then s[0]
    else if |s| == 2 then (s[0] - 0xC0) * 0x40 + (s[1] - 0x80)
    else if |s| == 3 then ((s[0] - 0xE0) * 0x40 + (s[1] - 0x80)) * 0x40 + (s[2] - 0x80)
    else (((s[0] - 0xF0) * 0x40 + (s[1] - 0x80)) * 0x40 + (s[2] - 0x80)) * 0x40 + (s[3] - 0x80)
  }

  function Character(s: seq<Byte>): char
    requires s != [] && IsWhole(s)
  {
    CodePoint(s[..Taken(s)]) as char
  }

  function Lossy(s: seq<Byte>): string
    decreases |s|
  {
    if s == [] then [] else [if IsWhole(s) then Character(s) else REPLACEMENT] + Lossy(s[Taken(s)..])
  }

  function Encoded(c: char): seq<Byte> {
    var n := c as int;
    if n < 0x80 then [n]
    else if n < 0x800 then [0xC0 + n / 0x40, 0x80 + n % 0x40]
    else if n < 0x1_0000 then [0xE0 + n / 0x40 / 0x40, 0x80 + n / 0x40 % 0x40, 0x80 + n % 0x40]
    else [0xF0 + n / 0x40 / 0x40 / 0x40, 0x80 + n / 0x40 / 0x40 % 0x40, 0x80 + n / 0x40 % 0x40, 0x80 + n % 0x40]
  }

  /** The UTF-8 form of a text. */
  function Encode(text: string): seq<Byte> {
    if text == [] then [] else Encoded(text[0]) + Encode(text[1..])
  }

  lemma EncodedIsWhole(c: char)
    ensures var s := Encoded(c);
            s != [] && Taken(s) == |s| && IsWhole(s) && Character(s) == c
  {
    assert Encoded(c)[..|Encoded(c)|] == Encoded(c);
  }

  lemma EncodedIsTaken(c: char, rest: seq<Byte>)
    ensures var s := Encoded(c) + rest;
            Taken(s) == |Encoded(c)| && IsWhole(s) && Character(s) == c
  {
    hide Encoded, CodePoint, Taken, Width;
    EncodedIsWhole(c);
    TakenIsLocal(Encoded(c), rest);
  }

  /** Well-formed text is read as it was meant, and no character of it is left open at the end. */
  lemma {:induction false} EncodedTextIsRead(text: string)
    ensures Lossy(Encode(text)) == text
    ensures Held(Encode(text)) == []
  {
    if text != [] {
      hide Taken, Character, Width;
      var first, rest := Encoded(text[0]), Encode(text[1..]);
      EncodedIsTaken(text[0], rest);
      assert (first + rest)[|first|..] == rest;
      EncodedTextIsRead(text[1..]);
    }
  }

  /** And nothing but well-formed text is read without a replacement: what is read as a character is
      the character's own bytes. */
  lemma WholeIsEncoded(s: seq<Byte>)
    requires s != [] && IsWhole(s)
    ensures s[..Taken(s)] == Encoded(Character(s))
  {
    var t: seq<int> := s[..Taken(s)];
    var code := CodePoint(t);
    if |t| == 2 {
      Digits(t[0] - 0xC0, t[1] - 0x80);
      assert Encoded(Character(s)) == [0xC0 + code / 0x40, 0x80 + code % 0x40];
    } else if |t| == 3 {
      Digits(t[0] - 0xE0, t[1] - 0x80);
      Digits(code / 0x40, t[2] - 0x80);
      assert code / 0x40 == (t[0] - 0xE0) * 0x40 + (t[1] - 0x80);
    } else if |t| == 4 {
      var high, mid := (t[0] - 0xF0) * 0x40 + (t[1] - 0x80), code / 0x40;
      Digits(t[0] - 0xF0, t[1] - 0x80);
      Digits(high, t[2] - 0x80);
      assert code / 0x40 == high * 0x40 + (t[2] - 0x80);
      Digits(mid, t[3] - 0x80);
    }
  }

  lemma Digits(high: int, low: int)
    requires 0 <= low < 0x40
    ensures (high * 0x40 + low) / 0x40 == high && (high * 0x40 + low) % 0x40 == low
  {
  }

  /** What is replaced at once is the longest beginning of a character that stands there, and a single
      byte where there is none. */
  lemma ReplacedIsTheLongestBeginning(s: seq<Byte>, c: char, n: nat)
    requires s != [] && !IsWhole(s)
    requires n <= |s| && n <= |Encoded(c)| && s[..n] == Encoded(c)[..n]
    ensures n <= Taken(s)
  {
    var e := Encoded(c);
    assert forall i :: 0 <= i < n ==> s[..n][i] == s[i] && e[..n][i] == e[i];
    EncodedIsWhole(c);
  }

  lemma ReplacedIsABeginning(s: seq<Byte>) returns (c: char)
    requires s != [] && !IsWhole(s) && Taken(s) > 1
    ensures s[..Taken(s)] <= Encoded(c)
  {
    var n := Taken(s);
    var t: seq<Byte> := if n == 2 && Width(s[0]) == 3 then [s[0], s[1], 0x80]
                        else if n == 2 then [s[0], s[1], 0x80, 0x80]
                        else [s[0], s[1], s[2], 0x80];
    assert Taken(t) == Width(t[0]) == |t|;
    c := Character(t);
    WholeIsEncoded(t);
    assert t[..|t|] == t;
  }

  // ---------------------------------------------------------------- reading in two goes

  /** The beginning of a character at the end of the bytes that is not finished there. */
  function Held(s: seq<Byte>): seq<Byte>
    decreases |s|
  {
    if s == [] then []
    else if Taken(s) == |s| && !IsWhole(s) then s
    else Held(s[Taken(s)..])
  }

  /** `b` goes on with the character `a` ends in. */
  predicate Cuts(a: seq<Byte>, b: seq<Byte>) {
    var held := Held(a);
    held != [] && Taken(held + b) > |held|
  }

  /** The characters of a text that are not line ends. */
  function Visible(text: string): nat {
    if text == [] then 0 else (if text[0] == '\r' || text[0] == '\n' then 0 else 1) + Visible(text[1..])
  }

  lemma {:induction false} VisibleConcat(a: string, b: string)
    ensures Visible(a + b) == Visible(a) + Visible(b)
  {
    if a == [] {
      assert a + b == b;
    } else {
      assert (a + b)[1..] == a[1..] + b;
      VisibleConcat(a[1..], b);
    }
  }

  /** What the first character is does not depend on what follows it. */
  lemma TakenIsLocal(a: seq<Byte>, b: seq<Byte>)
    requires a != [] && (Taken(a) < |a| || IsWhole(a))
    ensures Taken(a + b) == Taken(a) && IsWhole(a + b) == IsWhole(a)
    ensures IsWhole(a) ==> Character(a + b) == Character(a)
  {
    hide CodePoint;
    assert (a + b)[..Taken(a)] == a[..Taken(a)];
  }

  /** Bytes that go on with a character each count as one replacement when they come first. */
  lemma {:induction false} StrayBytes(s: seq<Byte>, k: nat)
    requires k <= |s| && forall i :: 0 <= i < k ==> Continues(s[i])
    ensures Visible(Lossy(s)) == k + Visible(Lossy(s[k..]))
    decreases k
  {
    if k == 0 {
      assert s[k..] == s;
    } else {
      StrayBytes(s[1..], k - 1);
      assert s[1..][k - 1..] == s[k..];
      assert Lossy(s) == [REPLACEMENT] + Lossy(s[1..]);
      VisibleConcat([REPLACEMENT], Lossy(s[1..]));
    }
  }

  lemma TakenContinue(a: seq<Byte>, b: seq<Byte>)
    requires a != [] && Taken(a) == |a| && !IsWhole(a)
    ensures Taken(a + b) >= |a|
    ensures Taken(a + b) == |a| ==> !IsWhole(a + b)
    ensures forall i :: 0 <= i < Taken(a + b) - |a| ==> Continues(b[i])
  {
    assert forall i :: 0 <= i < |b| ==> b[i] == (a + b)[|a| + i];
  }

  /** Read in two goes, bytes give the same text, unless a character is cut: then there are more
      characters in it than there should be. */
  lemma {:induction false} ReadInTwo(a: seq<Byte>, b: seq<Byte>)
    ensures !Cuts(a, b) ==> Lossy(a + b) == Lossy(a) + Lossy(b)
    ensures Cuts(a, b) ==> Visible(Lossy(a + b)) < Visible(Lossy(a)) + Visible(Lossy(b))
    decreases |a|
  {
    hide Taken, Character, Width, Visible;
    if a == [] {
      assert a + b == b;
    } else if Taken(a) == |a| && !IsWhole(a) {
      OneOpen(a, b);
    } else {
      TakenIsLocal(a, b);
      ReadInTwo(a[Taken(a)..], b);
      OneRead(a, b);
    }
  }

  lemma OneRead(a: seq<Byte>, b: seq<Byte>)
    requires a != [] && (Taken(a) < |a| || IsWhole(a))
    ensures var first, rest := [if IsWhole(a) then Character(a) else REPLACEMENT], a[Taken(a)..];
            && Lossy(a) == first + Lossy(rest) && Lossy(a + b) == first + Lossy(rest + b)
            && Visible(Lossy(a)) == Visible(first) + Visible(Lossy(rest))
            && Visible(Lossy(a + b)) == Visible(first) + Visible(Lossy(rest + b))
            && Held(a) == Held(rest)
  {
    hide Taken, Character, Width, Visible;
    TakenIsLocal(a, b);
    var n := Taken(a);
    assert (a + b)[n..] == a[n..] + b;
    var first := [if IsWhole(a) then Character(a) else REPLACEMENT];
    VisibleConcat(first, Lossy(a[n..]));
    VisibleConcat(first, Lossy(a[n..] + b));
    if Taken(a) == |a| {
      assert a[n..] == [];
    }
  }

  lemma OneOpen(a: seq<Byte>, b: seq<Byte>)
    requires a != [] && Taken(a) == |a| && !IsWhole(a)
    ensures Taken(a + b) <= |a| ==> Lossy(a + b) == Lossy(a) + Lossy(b)
    ensures Taken(a + b) > |a| ==> Visible(Lossy(a + b)) < Visible(Lossy(a)) + Visible(Lossy(b))
  {
    hide Taken, Character, Width;
    TakenContinue(a, b);
    var n := Taken(a + b);
    assert (a + b)[n..] == b[n - |a|..];
    assert Lossy(a) == [REPLACEMENT];
    if n > |a| {
      StrayBytes(b, n - |a|);
      var first := [if IsWhole(a + b) then Character(a + b) else REPLACEMENT];
      VisibleConcat(first, Lossy((a + b)[n..]));
    }
  }

  // ---------------------------------------------------------------- reading chunk by chunk

  function Texts(chunks: seq<seq<Byte>>): (texts: seq<string>)
    ensures |texts| == |chunks|
  {
    seq(|chunks|, k requires 0 <= k < |chunks| => Lossy(chunks[k]))
  }

  /** A chunk goes on with a character the chunks before it end in. */
  predicate CutsAt(chunks: seq<seq<Byte>>, k: nat)
    requires k < |chunks|
  {
    Cuts(Flat(chunks[..k]), chunks[k])
  }

  predicate CutsACharacter(chunks: seq<seq<Byte>>) {
    exists k :: 0 <= k < |chunks| && CutsAt(chunks, k)
  }

  /** The same for any number of chunks. */
  lemma {:induction false} ReadInChunks(chunks: seq<seq<Byte>>)
    ensures !CutsACharacter(chunks) ==> Flat(Texts(chunks)) == Lossy(Flat(chunks))
    ensures CutsACharacter(chunks) ==> Visible(Lossy(Flat(chunks))) < Visible(Flat(Texts(chunks)))
  {
    hide Cuts, Lossy, Visible;
    if chunks == [] {
      assert Lossy([]) == [] by { Nothing(); }
    } else {
      var n := |chunks| - 1;
      var before, last := chunks[..n], chunks[n];
      assert chunks == before + [last];
      assert Texts(chunks) == Texts(before) + [Lossy(last)];
      FlatSnoc(before, last);
      FlatSnoc(Texts(before), Lossy(last));
      ReadInChunks(before);
      ReadInTwo(Flat(before), last);
      VisibleConcat(Flat(Texts(before)), Lossy(last));
      VisibleConcat(Lossy(Flat(before)), Lossy(last));
      assert forall k :: 0 <= k < n ==> before[..k] == chunks[..k];
      assert forall k :: 0 <= k < n ==> CutsAt(before, k) == CutsAt(chunks, k);
      assert CutsAt(chunks, n) == Cuts(Flat(before), last);
    }
  }

  lemma Nothing()
    ensures Lossy([]) == []
  {
  }

  /** A character of two bytes, cut between them. */
  lemma TwoBytesOfOne()
    ensures var chunks := [[0xC3], [0xA9]];
            && Lossy(Flat(chunks)) == "\U{00E9}" && Flat(Texts(chunks)) == "\U{FFFD}\U{FFFD}"
  {
    var lead: seq<Byte>, last: seq<Byte> := [0xC3], [0xA9];
    var chunks := [lead, last];
    assert Lossy(lead) == [REPLACEMENT] && Lossy(last) == [REPLACEMENT];
    assert Texts(chunks) == [Lossy(lead)] + [Lossy(last)];
    FlatSnoc([Lossy(lead)], Lossy(last));
    assert chunks == [lead] + [last];
    FlatSnoc([lead], last);
    assert Flat(chunks) == Encoded('\U{00E9}') + [];
    EncodedIsWhole('\U{00E9}');
  }
}
