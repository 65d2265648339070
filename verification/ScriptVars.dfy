/**
 Placeholders in script commands (src/ssh/script_runner.rs).

 The loop is proved against a character-by-character reading of the text, and that reading is
 shown to have the laws a user relies on.
 */
module ScriptVars {
  import opened Wrappers
  import opened Text

  datatype StepCondition = Always | OnSuccess | OnFailure | OutputContains(needle: string)

  datatype ScriptStep = ScriptStep(command: string, condition: StepCondition, timeoutSecs: Option<nat>)

  datatype Script = Script(name: string, steps: seq<ScriptStep>, runOnConnect: bool)

  datatype Vars = Vars(name: string, host: string, port: nat, username: string)

  function Value(vars: Vars, key: string): Option<string> {
    if key == "name" then Some(vars.name)
    else if key == "host" then Some(vars.host)
    else if key == "port" then Some(Decimal(vars.port))
    else if key == "username" then Some(vars.username)
    else None
  }

  predicate Opens(s: string) {
    |s| >= 2 && s[0] == '{' && s[1] == '{'
  }

  /** The known placeholder a text starts with, as where it ends and what it stands for. */
  function Leading(vars: Vars, s: string): (r: Option<(nat, string)>)
    ensures r.Some? ==> Opens(s) && 4 <= r.value.0 <= |s|
  {
    if !Opens(s) then None
    else
      var close := Find(s[2..], "}}");
      if close.None? then None
      else
        var value := Value(vars, Trim(s[2..][..close.value]));
        if value.None? then None else Some((close.value + 4, value.value))
  }

  /** The text read once from left to right. */
  function Expanded(vars: Vars, s: string): string {
    if s == [] then []
    else if Leading(vars, s).Some? then Leading(vars, s).value.1 + Expanded(vars, s[Leading(vars, s).value.0..])
    else if Opens(s) then "{{" + Expanded(vars, s[2..])
    else [s[0]] + Expanded(vars, s[1..])
  }

  lemma OneLiteral(vars: Vars, s: string)
    requires s != [] && !Opens(s)
    ensures Expanded(vars, s) == [s[0]] + Expanded(vars, s[1..])
  {
    hide Find, Trim, Value;
  }

  lemma {:induction false} LiteralPrefix(vars: Vars, a: string, b: string)
    requires forall i :: 0 <= i < |a| ==> !Opens((a + b)[i..])
    ensures Expanded(vars, a + b) == a + Expanded(vars, b)
  {
    hide Expanded;
    if a == [] {
      assert a + b == b;
    } else {
      assert (a + b)[0..] == a + b;
      OneLiteral(vars, a + b);
      assert (a + b)[1..] == a[1..] + b;
      forall i | 0 <= i < |a[1..]| ensures !Opens((a[1..] + b)[i..]) {
        assert (a[1..] + b)[i..] == (a + b)[i + 1..];
      }
      LiteralPrefix(vars, a[1..], b);
      assert a == [a[0]] + a[1..];
    }
  }

  lemma OpensAt(s: string, i: nat)
    requires i <= |s|
    ensures Opens(s[i..]) <==> At(s, "{{", i)
  {
    if i + 2 <= |s| {
      assert s[i..i + 2] == [s[i], s[i + 1]];
    }
  }

  lemma UpToTheOpener(vars: Vars, s: string)
    ensures var open := Find(s, "{{");
      Expanded(vars, s) == if open.None? then s else s[..open.value] + Expanded(vars, s[open.value..])
  {
    var open := Find(s, "{{");
    var n := if open.None? then |s| else open.value;
    assert s == s[..n] + s[n..];
    forall i | 0 <= i < n ensures !Opens(s[i..]) {
      OpensAt(s, i);
    }
    LiteralPrefix(vars, s[..n], s[n..]);
    assert n == |s| ==> s[n..] == [];
  }

  /** One step of the reading: what is put out, and how much of the text it covers. */
  function FirstStep(vars: Vars, s: string): (r: (nat, string))
    requires s != []
    ensures 1 <= r.0 <= |s|
  {
    if Leading(vars, s).Some? then Leading(vars, s).value
    else if Opens(s) then (2, "{{")
    else (1, [s[0]])
  }

  lemma Steps(vars: Vars, s: string)
    requires s != []
    ensures Expanded(vars, s) == FirstStep(vars, s).1 + Expanded(vars, s[FirstStep(vars, s).0..])
  {
    hide Leading, Opens;
  }

  /** The loop's step, in the loop's own terms. */
  lemma OneRound(vars: Vars, rest: string, open: nat)
    requires Find(rest, "{{") == Some(open)
    ensures var after := rest[open + 2..];
      var close := Find(after, "}}");
      var value := if close.Some? then Value(vars, Trim(after[..close.value])) else None;
      Expanded(vars, rest) ==
        if value.Some? then rest[..open] + value.value + Expanded(vars, after[close.value + 2..])
        else rest[..open] + "{{" + Expanded(vars, after)
  {
    hide Find, Trim, Value, Expanded;
    UpToTheOpener(vars, rest);
    OpensAt(rest, open);
    var from := rest[open..];
    var after := rest[open + 2..];
    assert from[2..] == after && Opens(from);
    Steps(vars, from);
    var close := Find(after, "}}");
    if close.Some? {
      assert from[close.value + 4..] == after[close.value + 2..];
    }
  }

  method Expand(vars: Vars, command: string) returns (out: string)
    ensures out == Expanded(vars, command)
  {
    hide Find, Trim, Value, Expanded;
    out := [];
    var rest := command;
    var open := Find(rest, "{{");
    while open.Some?
      invariant out + Expanded(vars, rest) == Expanded(vars, command)
      invariant open == Find(rest, "{{")
      decreases |rest|
    {
      OneRound(vars, rest, open.value);
      out := out + rest[..open.value];
      var after := rest[open.value + 2..];
      var close := Find(after, "}}");
      if close.Some? {
        var value := Value(vars, Trim(after[..close.value]));
        if value.Some? {
          out := out + value.value;
          rest := after[close.value + 2..];
        } else {
          out := out + "{{";
          rest := after;
        }
      } else {
        out := out + "{{";
        rest := after;
      }
      open := Find(rest, "{{");
    }
    UpToTheOpener(vars, rest);
    out := out + rest;
  }

  // ---------------------------------------------------------------- laws

  lemma {:induction false} PlainTextIsUnchanged(vars: Vars, s: string)
    requires forall i :: 0 <= i <= |s| ==> Leading(vars, s[i..]).None?
    ensures Expanded(vars, s) == s
  {
    if s != [] {
      assert s[0..] == s;
      var n := if Opens(s) then 2 else 1;
      forall i | 0 <= i <= |s[n..]| ensures Leading(vars, s[n..][i..]).None? {
        assert s[n..][i..] == s[i + n..];
      }
      PlainTextIsUnchanged(vars, s[n..]);
      assert s == s[..n] + s[n..];
      assert Opens(s) ==> s[..n] == "{{";
    }
  }

  function TrailingBraces(a: string): nat {
    if a != [] && a[|a| - 1] == '{' then 1 + TrailingBraces(a[..|a| - 1]) else 0
  }

  function Placeholder(k: string): string {
    "{{" + k + "}}"
  }

  /** A known placeholder is replaced exactly when an even number of braces comes before it; the
      text on either side is expanded as if it stood alone, and what is put in is not looked at
      again. */
  lemma {:induction false} ExpandingAroundAPlaceholder(vars: Vars, a: string, k: string, b: string)
    requires Value(vars, Trim(k)).Some?
    ensures Expanded(vars, a + Placeholder(k) + b)
         == Expanded(vars, a)
            + (if TrailingBraces(a) % 2 == 0 then Value(vars, Trim(k)).value else Placeholder(k))
            + Expanded(vars, b)
    decreases |a|
  {
    hide Find, Trim, Value, Leading, Placeholder, Expanded, FirstStep, TrailingBraces;
    var p := Placeholder(k);
    KeysHaveNoBraces(vars, k);
    if a == [] {
      StartsWithThePlaceholder(vars, k, b);
      assert a + p + b == p + b;
      assert Expanded(vars, "") == "" && TrailingBraces("") == 0 by { NothingToExpand(vars); }
    } else if a == "{" {
      OneBraceTooMany(vars, k, b);
      assert a + p + b == "{" + (p + b);
    } else {
      SameFirstStep(vars, a, k, b);
      var n := FirstStep(vars, a).0;
      Steps(vars, a);
      Steps(vars, a + p + b);
      assert (a + p + b)[n..] == a[n..] + p + b;
      ExpandingAroundAPlaceholder(vars, a[n..], k, b);
    }
  }

  /** What the four keys stand for, with any white space around them; the port is written in decimal. */
  lemma WhatTheKeysStandFor(vars: Vars, before: string, after: string)
    requires Blank(before) && Blank(after)
    ensures Expanded(vars, Placeholder(before + "name" + after)) == vars.name
    ensures Expanded(vars, Placeholder(before + "host" + after)) == vars.host
    ensures Expanded(vars, Placeholder(before + "port" + after)) == Decimal(vars.port)
    ensures Expanded(vars, Placeholder(before + "username" + after)) == vars.username
  {
    hide Expanded, Placeholder, Blank, Decimal;
    OneKey(vars, before, "name", after);
    OneKey(vars, before, "host", after);
    OneKey(vars, before, "port", after);
    OneKey(vars, before, "username", after);
  }

  lemma OneKey(vars: Vars, before: string, key: string, after: string)
    requires Blank(before) && Blank(after) && Value(vars, key).Some?
    ensures Expanded(vars, Placeholder(before + key + after)) == Value(vars, key).value
  {
    hide Value, Expanded, Placeholder, IsSpace, Trim;
    assert key != [] && !IsSpace(key[0]) && !IsSpace(key[|key| - 1]) by { KeysAreWords(vars, key); }
    TrimIs(before, key, after);
    var k := before + key + after;
    ExpandingAroundAPlaceholder(vars, [], k, []);
    NothingToExpand(vars);
    assert [] + Placeholder(k) + [] == Placeholder(k);
    assert [] + Value(vars, key).value + [] == Value(vars, key).value;
  }

  lemma KeysAreWords(vars: Vars, key: string)
    requires Value(vars, key).Some?
    ensures key != [] && !IsSpace(key[0]) && !IsSpace(key[|key| - 1])
  {
  }

  /** No other key is known. */
  lemma OtherKeysStandForNothing(vars: Vars, key: string)
    ensures Value(vars, key).None? <==> key != "name" && key != "host" && key != "port" && key != "username"
  {
  }

  lemma NothingToExpand(vars: Vars)
    ensures Expanded(vars, "") == "" && TrailingBraces("") == 0
  {
  }

  lemma SameFirstStep(vars: Vars, a: string, k: string, b: string)
    requires a != [] && a != "{" && '{' !in k && '}' !in k
    ensures FirstStep(vars, a + Placeholder(k) + b) == FirstStep(vars, a)
    ensures TrailingBraces(a) % 2 == TrailingBraces(a[FirstStep(vars, a).0..]) % 2
  {
    hide Leading;
    LeadingIsLocal(vars, a, k, b);
    if Leading(vars, a).Some? {
      LeadingEndsInABrace(vars, a);
    }
    BracesAfter(a, FirstStep(vars, a).0);
  }

  lemma LeadingEndsInABrace(vars: Vars, a: string)
    requires Leading(vars, a).Some?
    ensures a[Leading(vars, a).value.0 - 1] == '}'
  {
    hide Find, Trim, Value;
    var x := a[2..];
    var close := Find(x, "}}").value;
    assert x[close..close + 2][1] == a[close + 3];
  }

  lemma TrimKeeps(s: string, c: char)
    requires c in s && !IsSpace(c)
    ensures c in Trim(s)
  {
    hide TrimStart, TrimEnd, IsSpace;
    var t := TrimStart(s);
    var cut := |s| - |t|;
    var i :| 0 <= i < |s| && s[i] == c;
    assert s[cut..][i - cut] == c;
    assert c in t;
    var j :| 0 <= j < |t| && t[j] == c;
    assert t[..|TrimEnd(t)|][j] == c;
  }

  lemma KeysHaveNoBraces(vars: Vars, k: string)
    requires Value(vars, Trim(k)).Some?
    ensures '{' !in k && '}' !in k && k != []
  {
    hide Trim;
    assert Trim("") == "" by { NothingToTrim(); }
    if '{' in k {
      TrimKeeps(k, '{');
      assert false;
    }
    if '}' in k {
      TrimKeeps(k, '}');
      assert false;
    }
  }

  lemma NothingToTrim()
    ensures Trim("") == ""
  {
  }

  lemma BracesHideTheKey(vars: Vars, k: string)
    requires '{' in k
    ensures Value(vars, Trim(k)).None?
  {
    hide Trim;
    TrimKeeps(k, '{');
  }

  lemma ClosesAt(s: string, n: nat)
    requires n + 2 <= |s| && s[n] == '}' && s[n + 1] == '}'
    requires forall i :: 0 <= i < n ==> s[i] != '}' || s[i + 1] != '}'
    ensures Find(s, "}}") == Some(n)
  {
    hide Find;
    assert s[n..n + 2] == "}}";
    assert At(s, "}}", n);
    forall i | 0 <= i < n ensures !At(s, "}}", i) {
      assert s[i..i + 2][0] == s[i] && s[i..i + 2][1] == s[i + 1];
    }
  }

  lemma DoesNotClose(s: string)
    requires Find(s, "}}").None?
    ensures forall i :: 0 <= i < |s| - 1 ==> s[i] != '}' || s[i + 1] != '}'
  {
    hide Find;
    forall i | 0 <= i < |s| - 1 ensures s[i] != '}' || s[i + 1] != '}' {
      assert !At(s, "}}", i);
      assert s[i..i + 2] == [s[i], s[i + 1]];
    }
  }

  lemma CloserAfter(x: string, b: string)
    requires '}' !in x
    ensures Find(x + "}}" + b, "}}") == Some(|x|)
  {
    hide Find;
    var s := x + "}}" + b;
    forall i | 0 <= i < |x| ensures s[i] != '}' {
      assert s[i] == x[i] && x[i] in x;
    }
    ClosesAt(s, |x|);
  }

  lemma StartsWithThePlaceholder(vars: Vars, k: string, b: string)
    requires Value(vars, Trim(k)).Some? && '{' !in k && '}' !in k
    ensures Leading(vars, Placeholder(k) + b) == Some((|k| + 4, Value(vars, Trim(k)).value))
    ensures Expanded(vars, Placeholder(k) + b) == Value(vars, Trim(k)).value + Expanded(vars, b)
  {
    hide Find, Trim, Value;
    var s := Placeholder(k) + b;
    assert s[2..] == k + "}}" + b;
    CloserAfter(k, b);
    assert s[2..][..|k|] == k;
    assert s[|k| + 4..] == b;
  }

  lemma OneBraceTooMany(vars: Vars, k: string, b: string)
    requires '{' !in k && '}' !in k && k != []
    ensures Expanded(vars, "{" + (Placeholder(k) + b)) == "{" + Placeholder(k) + Expanded(vars, b)
    ensures Expanded(vars, "{") == "{" && TrailingBraces("{") == 1
  {
    hide Find, Trim, Value, Leading;
    var s := "{" + (Placeholder(k) + b);
    var lit := "{" + k + "}}";
    NotAPlaceholder(vars, k, b);
    Steps(vars, s);
    assert s[2..] == lit + b;
    LiteralBody(vars, k, b);
    assert "{" + Placeholder(k) == "{{" + lit;
    assert "{"[..0] == "" && "{"[1..] == "";
    NothingToExpand(vars);
    Steps(vars, "{");
  }

  lemma NotAPlaceholder(vars: Vars, k: string, b: string)
    requires '{' !in k && '}' !in k
    ensures Leading(vars, "{" + (Placeholder(k) + b)).None? && Leading(vars, "{").None?
  {
    hide Find, Trim, Value;
    var s := "{" + (Placeholder(k) + b);
    var x := "{" + k;
    assert s[2..] == x + "}}" + b;
    CloserAfter(x, b);
    assert s[2..][..|x|] == x;
    assert x[0] == '{';
    BracesHideTheKey(vars, x);
  }

  lemma LiteralBody(vars: Vars, k: string, b: string)
    requires '{' !in k && '}' !in k && k != []
    ensures Expanded(vars, "{" + k + "}}" + b) == "{" + k + "}}" + Expanded(vars, b)
  {
    var lit := "{" + k + "}}";
    forall i | 0 <= i < |lit| ensures !Opens((lit + b)[i..]) {
      assert i > 0 ==> lit[i] != '{';
      assert lit[1] == k[0] && k[0] in k;
    }
    LiteralPrefix(vars, lit, b);
  }

  /** What follows a text does not change the placeholder it starts with. */
  lemma LeadingIsLocal(vars: Vars, a: string, k: string, b: string)
    requires a != [] && a != "{" && '{' !in k && '}' !in k
    ensures Leading(vars, a + Placeholder(k) + b) == Leading(vars, a)
  {
    hide Find, Trim, Value;
    var s := a + Placeholder(k) + b;
    if Opens(a) {
      var x := a[2..];
      assert s[2..] == x + Placeholder(k) + b;
      var close := Find(x, "}}");
      if close.Some? {
        FoundAlready(x, Placeholder(k) + b, close.value);
        assert x + (Placeholder(k) + b) == s[2..];
        assert s[2..][..close.value] == x[..close.value];
      } else {
        ClosesWithThePlaceholder(x, k, b);
        var key := x + "{{" + k;
        assert s[2..][..|key|] == key;
        assert key[|x|] == '{';
        BracesHideTheKey(vars, key);
      }
    }
  }

  lemma FoundAlready(x: string, y: string, at: nat)
    requires Find(x, "}}") == Some(at)
    ensures Find(x + y, "}}") == Some(at)
  {
    hide Find;
    assert (x + y)[at..at + 2] == x[at..at + 2];
    assert At(x + y, "}}", at);
    forall i | 0 <= i < at ensures !At(x + y, "}}", i) {
      assert !At(x, "}}", i);
      assert (x + y)[i..i + 2] == x[i..i + 2];
    }
  }

  lemma ClosesWithThePlaceholder(x: string, k: string, b: string)
    requires Find(x, "}}").None? && '}' !in k
    ensures Find(x + Placeholder(k) + b, "}}") == Some(|x| + 2 + |k|)
  {
    hide Find;
    var s := x + Placeholder(k) + b;
    var n := |x| + 2 + |k|;
    DoesNotClose(x);
    forall i | 0 <= i < n ensures s[i] != '}' || s[i + 1] != '}' {
      if i < |x| {
        assert s[i] == x[i];
        assert i + 1 == |x| ==> s[i + 1] == '{';
      } else {
        assert s[i] == ("{{" + k)[i - |x|];
        assert i - |x| >= 2 ==> s[i] == k[i - |x| - 2] && k[i - |x| - 2] in k;
      }
    }
    ClosesAt(s, n);
  }

  /** Reading past a pair of braces, or past anything that is not a brace, keeps the parity. */
  lemma {:induction false} BracesAfter(a: string, n: nat)
    requires 0 < n <= |a|
    requires a[n - 1] != '{' || (n == 2 && Opens(a)) || (n == 1 && |a| > 1 && a[1] != '{')
    ensures TrailingBraces(a) % 2 == TrailingBraces(a[n..]) % 2
    decreases |a|
  {
    if n < |a| && a[|a| - 1] == '{' {
      var b := a[..|a| - 1];
      assert b[n..] == a[n..][..|a| - n - 1];
      if !(n == 1 && |b| == 1) {
        BracesAfter(b, n);
      }
    } else if n == |a| {
      assert a[n..] == [];
      if a[n - 1] == '{' {
        assert a == "{{";
        assert a[..1] == "{" && a[..1][..0] == "";
      }
    }
  }

  // ---------------------------------------------------------------- scripts

  function ExpandScript(vars: Vars, script: Script): (r: Script)
    ensures r.name == script.name && r.runOnConnect == script.runOnConnect && |r.steps| == |script.steps|
    ensures forall i :: 0 <= i < |script.steps| ==>
      r.steps[i] == script.steps[i].(command := Expanded(vars, script.steps[i].command))
  {
    script.(steps := seq(|script.steps|, i requires 0 <= i < |script.steps| =>
      script.steps[i].(command := Expanded(vars, script.steps[i].command))))
  }

  /** A script that mentions nothing known is expanded to itself, on every server. */
  lemma PlainScriptsAreUnchanged(vars: Vars, script: Script)
    requires forall i, j :: 0 <= i < |script.steps| && 0 <= j <= |script.steps[i].command| ==>
               Leading(vars, script.steps[i].command[j..]).None?
    ensures ExpandScript(vars, script) == script
  {
    hide Leading, Expanded;
    forall i | 0 <= i < |script.steps| ensures Expanded(vars, script.steps[i].command) == script.steps[i].command {
      PlainTextIsUnchanged(vars, script.steps[i].command);
    }
    assert ExpandScript(vars, script).steps == script.steps;
  }
}
