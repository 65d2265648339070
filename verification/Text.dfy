/**
 The string operations of the standard library the scanners use, over characters.
 */
module Text {
  import opened Wrappers

  /** `char::is_whitespace`: the Unicode property White_Space. */
  predicate IsSpace(c: char) {
    || '\t' <= c <= '\r' || c == ' ' || c == '\U{0085}' || c == '\U{00A0}' || c == '\U{1680}'
    || '\U{2000}' <= c <= '\U{200A}' || c == '\U{2028}' || c == '\U{2029}' || c == '\U{202F}'
    || c == '\U{205F}' || c == '\U{3000}'
  }

  function TrimStart(s: string): (r: string)
    ensures r != [] ==> !IsSpace(r[0])
    ensures |r| <= |s| && r == s[|s| - |r|..]
    ensures forall i :: 0 <= i < |s| - |r| ==> IsSpace(s[i])
  {
    if s != [] && IsSpace(s[0]) then TrimStart(s[1..]) else s
  }

  function TrimEnd(s: string): (r: string)
    ensures r != [] ==> !IsSpace(r[|r| - 1])
    ensures |r| <= |s| && r == s[..|r|]
    ensures forall i :: |r| <= i < |s| ==> IsSpace(s[i])
  {
    if s != [] && IsSpace(s[|s| - 1]) then TrimEnd(s[..|s| - 1]) else s
  }

  function Trim(s: string): string {
    TrimEnd(TrimStart(s))
  }

  predicate Blank(s: string) {
    forall i :: 0 <= i < |s| ==> IsSpace(s[i])
  }

  lemma {:induction false} TrimIs(lead: string, body: string, trail: string)
    requires Blank(lead) && Blank(trail)
    requires body != [] ==> !IsSpace(body[0]) && !IsSpace(body[|body| - 1])
    ensures Trim(lead + body + trail) == body
  {
    hide IsSpace;
    if lead != [] {
      assert (lead + body + trail)[1..] == lead[1..] + body + trail;
      assert (lead + body + trail)[0] == lead[0];
      TrimIs(lead[1..], body, trail);
    } else {
      assert lead + body + trail == body + trail;
      if body == [] {
        BlankIsTrimmed(trail);
        assert body + trail == trail;
      } else {
        TrimEndIs(body, trail);
      }
    }
  }

  lemma {:induction false} TrimEndIs(body: string, trail: string)
    requires Blank(trail) && (body != [] ==> !IsSpace(body[|body| - 1]))
    ensures TrimEnd(body + trail) == body
  {
    hide IsSpace;
    if trail == [] {
      assert body + trail == body;
    } else {
      assert (body + trail)[..|body + trail| - 1] == body + trail[..|trail| - 1];
      TrimEndIs(body, trail[..|trail| - 1]);
    }
  }

  lemma {:induction false} BlankIsTrimmed(s: string)
    requires Blank(s)
    ensures TrimStart(s) == [] && Trim(s) == []
  {
    if s != [] {
      BlankIsTrimmed(s[1..]);
    }
  }

  /** What `Trim` leaves, and what it takes away. */
  lemma Trimmed(s: string) returns (lead: string, trail: string)
    ensures s == lead + Trim(s) + trail && Blank(lead) && Blank(trail)
    ensures Trim(s) != [] ==> !IsSpace(Trim(s)[0]) && !IsSpace(Trim(s)[|Trim(s)| - 1])
  {
    hide IsSpace, TrimStart, TrimEnd;
    var rest := TrimStart(s);
    var body := TrimEnd(rest);
    lead, trail := s[..|s| - |rest|], rest[|body|..];
    assert rest == body + trail;
    assert s == lead + rest;
    assert body != [] ==> body[0] == rest[0];
  }

  /** `needle` stands in `s` at position `i`. */
  predicate At(s: string, needle: string, i: int) {
    0 <= i <= |s| - |needle| && s[i..i + |needle|] == needle
  }

  /** `needle` stands somewhere in `s`. */
  ghost predicate Occurs(s: string, needle: string) {
    exists i :: At(s, needle, i)
  }

  /** The first position at which `needle` stands in `s`. */
  function Find(s: string, needle: string): (r: Option<nat>)
    ensures r.None? <==> forall i :: !At(s, needle, i)
    ensures r.Some? ==> At(s, needle, r.value) && forall i :: 0 <= i < r.value ==> !At(s, needle, i)
  {
    FindFrom(s, needle, 0)
  }

  function FindFrom(s: string, needle: string, start: nat): (r: Option<nat>)
    requires start <= |s|
    ensures r.None? <==> forall i :: start <= i ==> !At(s, needle, i)
    ensures r.Some? ==> At(s, needle, r.value) && start <= r.value && forall i :: start <= i < r.value ==>
            !At(s, needle, i)
    decreases |s| - start
  {
    if At(s, needle, start) then Some(start)
    else if start == |s| then None
    else FindFrom(s, needle, start + 1)
  }

  predicate Contains(s: string, needle: string) {
    Find(s, needle).Some?
  }

  function Decimal(n: nat): string {
    if n < 10 then [('0' as int + n) as char] else Decimal(n / 10) + [('0' as int + n % 10) as char]
  }

  predicate Digits(s: string) {
    forall i :: 0 <= i < |s| ==> '0' <= s[i] <= '9'
  }

  function Numeral(s: string): nat
    requires Digits(s)
  {
    if s == [] then 0 else Numeral(s[..|s| - 1]) * 10 + (s[|s| - 1] as int - '0' as int)
  }

  lemma {:induction false} DecimalIsRead(n: nat)
    ensures Digits(Decimal(n)) && Decimal(n) != [] && Numeral(Decimal(n)) == n
  {
    if n >= 10 {
      DecimalIsRead(n / 10);
      assert Decimal(n)[..|Decimal(n)| - 1] == Decimal(n / 10);
    } else {
      assert Decimal(n)[..0] == [];
    }
  }

  function Flat<T>(chunks: seq<seq<T>>): seq<T> {
    if chunks == [] then [] else chunks[0] + Flat(chunks[1..])
  }

  lemma {:induction false} FlatSnoc<T>(chunks: seq<seq<T>>, last: seq<T>)
    ensures Flat(chunks + [last]) == Flat(chunks) + last
  {
    if chunks != [] {
      assert (chunks + [last])[1..] == chunks[1..] + [last];
      FlatSnoc(chunks[1..], last);
    }
  }
}
