/**
 Reading an OpenSSH client configuration (src/ssh_config.rs).

 The single pass over the lines is proved equal to a reading in two phases: group the settings
 into blocks, then say what each block and the defaults mean.
 */
module SshConfig {
  import opened Wrappers
  import opened Text

  datatype Host = Host(alias: string, hostname: string, user: Option<string>, port: Option<nat>,
    identityFile: Option<string>)

  datatype Defaults = Defaults(user: Option<string>, port: Option<nat>, identityFile: Option<string>)

  datatype Setting = Setting(keyword: string, value: string)

  // ---------------------------------------------------------------- one line

  function UpTo(s: string, stops: set<char>): (r: string)
    ensures |r| <= |s| && r == s[..|r|] && (|r| < |s| ==> s[|r|] in stops)
    ensures forall c :: c in r ==> c !in stops
  {
    if s == [] || s[0] in stops then [] else [s[0]] + UpTo(s[1..], stops)
  }

  function After(s: string, skipped: set<char>): string {
    if s != [] && s[0] in skipped then After(s[1..], skipped) else s
  }

  function Lower(s: string): string {
    seq(|s|, i requires 0 <= i < |s| => if 'A' <= s[i] <= 'Z' then (s[i] as int + 32) as char else s[i])
  }

  /** The keyword of a line, lowercased, and its value; `None` for a line that sets nothing. */
  function SplitLine(line: string): Option<Setting> {
    var bare := Trim(UpTo(line, {'#'}));
    var keyword := UpTo(bare, {' ', '\t', '='});
    if keyword == bare then None
    else
      var value := Trim(After(bare[|keyword|..], {' ', '\t', '='}));
      if value == [] then None else Some(Setting(Lower(keyword), value))
  }

  function Lines(text: string): seq<string>
    decreases |text|
  {
    if text == [] then []
    else
      var line := UpTo(text, {'\n'});
      [line] + if |line| < |text| then Lines(text[|line| + 1..]) else []
  }

  function Words(s: string): seq<string>
    decreases |s|
  {
    var t := TrimStart(s);
    if t == [] then []
    else
      var word := UpToSpace(t);
      [word] + Words(t[|word|..])
  }

  function UpToSpace(s: string): (r: string)
    ensures |r| <= |s| && (s != [] && !IsSpace(s[0]) ==> |r| > 0)
  {
    if s == [] || IsSpace(s[0]) then [] else [s[0]] + UpToSpace(s[1..])
  }

  /** `u16::from_str`. */
  function ParsePort(value: string): Option<nat> {
    var digits := if value != [] && value[0] == '+' then value[1..] else value;
    if digits == [] || !Digits(digits) || Numeral(digits) > 65535 then None else Some(Numeral(digits))
  }

  function ExpandTilde(home: Option<string>, path: string): string {
    if home.None? || |path| < 2 || path[..2] != "~/" then path
    else
      var rest := path[2..];
      if rest != [] && rest[0] == '/' then rest
      else if home.value == [] || home.value[|home.value| - 1] == '/' then home.value + rest
      else home.value + "/" + rest
  }

  // ---------------------------------------------------------------- phase one: blocks

  datatype Kind = Preamble | Wildcard | Skipped | Named(alias: string)

  datatype Block = Block(kind: Kind, settings: seq<Setting>)

  predicate IsHeader(s: Setting) {
    s.keyword == "host" || s.keyword == "match"
  }

  function KindOf(header: Setting): Kind {
    if header.keyword == "match" then Skipped else OpenHost(header.value)
  }

  function OpenHost(value: string): Kind {
    var patterns := Words(value);
    if |patterns| != 1 then Skipped
    else if patterns[0] == "*" then Wildcard
    else if '*' in patterns[0] || '?' in patterns[0] || '!' in patterns[0] then Skipped
    else Named(patterns[0])
  }

  function Settings(lines: seq<string>): seq<Setting> {
    if lines == [] then []
    else
      var s := SplitLine(lines[|lines| - 1]);
      Settings(lines[..|lines| - 1]) + if s.Some? then [s.value] else []
  }

  /** The settings cut into blocks at the headers; what comes first belongs to the preamble. */
  function Blocks(settings: seq<Setting>): (blocks: seq<Block>)
    ensures |blocks| > 0
  {
    if settings == [] then [Block(Preamble, [])]
    else
      var n := |settings| - 1;
      Extend(Blocks(settings[..n]), settings[n])
  }

  function Extend(blocks: seq<Block>, s: Setting): (r: seq<Block>)
    requires |blocks| > 0
    ensures |r| > 0
  {
    if IsHeader(s) then blocks + [Block(KindOf(s), [])]
    else
      var n := |blocks| - 1;
      blocks[..n] + [blocks[n].(settings := blocks[n].settings + [s])]
  }

  // ---------------------------------------------------------------- phase two: meaning

  function Last(settings: seq<Setting>, keyword: string): Option<string> {
    if settings == [] then None
    else if settings[|settings| - 1].keyword == keyword then Some(settings[|settings| - 1].value)
    else Last(settings[..|settings| - 1], keyword)
  }

  function First(settings: seq<Setting>, keyword: string): Option<string> {
    if settings == [] then None
    else if settings[0].keyword == keyword then Some(settings[0].value)
    else First(settings[1..], keyword)
  }

  /** The last port that can be read. */
  function LastPort(settings: seq<Setting>): Option<nat> {
    if settings == [] then None
    else
      var s := settings[|settings| - 1];
      if s.keyword == "port" && ParsePort(s.value).Some? then ParsePort(s.value)
      else LastPort(settings[..|settings| - 1])
  }

  function Expanded(home: Option<string>, path: Option<string>): Option<string> {
    if path.Some? then Some(ExpandTilde(home, path.value)) else None
  }

  /** What a host block says by itself. */
  function HostOf(home: Option<string>, alias: string, settings: seq<Setting>): Host {
    Host(
      alias,
      if Last(settings, "hostname").Some? then Last(settings, "hostname").value else alias,
      Last(settings, "user"),
      LastPort(settings),
      Expanded(home, First(settings, "identityfile")))
  }

  /** What the defaults are; here the last port decides even when it cannot be read. */
  function DefaultsOf(home: Option<string>, settings: seq<Setting>): Defaults {
    Defaults(
      Last(settings, "user"),
      if Last(settings, "port").Some? then ParsePort(Last(settings, "port").value) else None,
      Expanded(home, Last(settings, "identityfile")))
  }

  predicate IsDefault(kind: Kind) {
    kind.Preamble? || kind.Wildcard?
  }

  function DefaultSettings(blocks: seq<Block>): seq<Setting> {
    if blocks == [] then []
    else
      var last := blocks[|blocks| - 1];
      DefaultSettings(blocks[..|blocks| - 1]) + if IsDefault(last.kind) then last.settings else []
  }

  function HostsOf(home: Option<string>, blocks: seq<Block>): seq<Host> {
    if blocks == [] then []
    else
      var last := blocks[|blocks| - 1];
      HostsOf(home, blocks[..|blocks| - 1]) + if last.kind.Named? then [HostOf(home, last.kind.alias, last.settings)]
        else []
  }

  function Or<T>(a: Option<T>, b: Option<T>): Option<T> {
    if a.Some? then a else b
  }

  function Resolved(host: Host, d: Defaults): Host {
    host.(user := Or(host.user, d.user), port := Or(host.port, d.port),
      identityFile := Or(host.identityFile, d.identityFile))
  }

  function ResolvedAll(hosts: seq<Host>, d: Defaults): (r: seq<Host>)
    ensures |r| == |hosts|
  {
    seq(|hosts|, i requires 0 <= i < |hosts| => Resolved(hosts[i], d))
  }

  /** The meaning of a configuration. */
  function Meaning(home: Option<string>, blocks: seq<Block>): seq<Host> {
    ResolvedAll(HostsOf(home, blocks), DefaultsOf(home, DefaultSettings(blocks)))
  }

  // ---------------------------------------------------------------- the single pass

  datatype Current = InDefaults(kind: Kind) | Ignoring | InHost(entry: Host)

  function Opened(kind: Kind): Current {
    match kind
    case Named(alias) => InHost(Host(alias, alias, None, None, None))
    case Skipped => Ignoring
    case _ => InDefaults(kind)
  }

  function ToDefaults(home: Option<string>, d: Defaults, s: Setting): Defaults {
    match s.keyword
    case "user" => d.(user := Some(s.value))
    case "port" => d.(port := ParsePort(s.value))
    case "identityfile" => d.(identityFile := Some(ExpandTilde(home, s.value)))
    case _ => d
  }

  function ToHost(home: Option<string>, h: Host, s: Setting): Host {
    match s.keyword
    case "hostname" => h.(hostname := s.value)
    case "user" => h.(user := Some(s.value))
    case "port" => h.(port := Or(ParsePort(s.value), h.port))
    case "identityfile" => if h.identityFile.None? then h.(identityFile := Some(ExpandTilde(home, s.value))) else h
    case _ => h
  }

  lemma DefaultsGrow(home: Option<string>, settings: seq<Setting>, s: Setting)
    ensures DefaultsOf(home, settings + [s]) == ToDefaults(home, DefaultsOf(home, settings), s)
  {
    assert (settings + [s])[..|settings|] == settings;
  }

  lemma {:induction false} FirstGrows(settings: seq<Setting>, s: Setting, keyword: string)
    ensures First(settings + [s], keyword) == Or(First(settings, keyword), if s.keyword == keyword then Some(s.value)
            else None)
  {
    if settings == [] {
      assert [s][1..] == [];
    } else {
      assert (settings + [s])[1..] == settings[1..] + [s];
      FirstGrows(settings[1..], s, keyword);
    }
  }

  lemma HostGrows(home: Option<string>, alias: string, settings: seq<Setting>, s: Setting)
    ensures HostOf(home, alias, settings + [s]) == ToHost(home, HostOf(home, alias, settings), s)
  {
    assert (settings + [s])[..|settings|] == settings;
    FirstGrows(settings, s, "identityfile");
  }

  /** What the pass holds in its hands is the meaning of the blocks so far. */
  ghost predicate Holds(home: Option<string>, blocks: seq<Block>, current: Current, hosts: seq<Host>,
      defaults: Defaults)
    requires |blocks| > 0
  {
    var n := |blocks| - 1;
    && defaults == DefaultsOf(home, DefaultSettings(blocks))
    && hosts == HostsOf(home, blocks[..n])
    && current == (match blocks[n].kind
                   case Named(alias) => InHost(HostOf(home, alias, blocks[n].settings))
                   case Skipped => Ignoring
                   case kind => InDefaults(kind))
  }

  function Closed(hosts: seq<Host>, current: Current): seq<Host> {
    if current.InHost? then hosts + [current.entry] else hosts
  }

  lemma HoldsAtAHeader(home: Option<string>, blocks: seq<Block>, current: Current, hosts: seq<Host>,
      defaults: Defaults, s: Setting)
    requires |blocks| > 0 && Holds(home, blocks, current, hosts, defaults) && IsHeader(s)
    ensures Holds(home, Extend(blocks, s), Opened(KindOf(s)), Closed(hosts, current), defaults)
  {
    assert Extend(blocks, s)[..|blocks|] == blocks;
    var kind := KindOf(s);
    assert DefaultSettings(Extend(blocks, s)) == DefaultSettings(blocks);
  }

  lemma HoldsAtASetting(home: Option<string>, blocks: seq<Block>, current: Current, hosts: seq<Host>,
      defaults: Defaults, s: Setting)
    requires |blocks| > 0 && Holds(home, blocks, current, hosts, defaults) && !IsHeader(s)
    ensures match current
      case InDefaults(_) => Holds(home, Extend(blocks, s), current, hosts, ToDefaults(home, defaults, s))
      case Ignoring => Holds(home, Extend(blocks, s), current, hosts, defaults)
      case InHost(entry) => Holds(home, Extend(blocks, s), InHost(ToHost(home, entry, s)), hosts, defaults)
  {
    hide ToDefaults, ToHost, HostOf, DefaultsOf;
    var n := |blocks| - 1;
    var blocks' := Extend(blocks, s);
    assert blocks'[..n] == blocks[..n];
    match blocks[n].kind {
      case Named(alias) => HostGrows(home, alias, blocks[n].settings, s);
      case Skipped =>
      case _ =>
        DefaultsGrow(home, DefaultSettings(blocks), s);
        assert DefaultSettings(blocks[..n]) + (blocks[n].settings + [s]) == DefaultSettings(blocks) + [s];
    }
  }

  lemma HoldsAtTheEnd(home: Option<string>, blocks: seq<Block>, current: Current, hosts: seq<Host>, defaults: Defaults)
    requires |blocks| > 0 && Holds(home, blocks, current, hosts, defaults)
    ensures ResolvedAll(Closed(hosts, current), defaults) == Meaning(home, blocks)
  {
  }

  /** The last loop: what a host leaves open, the defaults fill in. */
  method ApplyDefaults(hosts: seq<Host>, defaults: Defaults) returns (r: seq<Host>)
    ensures r == ResolvedAll(hosts, defaults)
  {
    r := [];
    var k := 0;
    while k < |hosts|
      invariant k <= |hosts| && r == ResolvedAll(hosts[..k], defaults)
    {
      var host := hosts[k];
      if host.user.None? {
        host := host.(user := defaults.user);
      }
      if host.port.None? {
        host := host.(port := defaults.port);
      }
      if host.identityFile.None? {
        host := host.(identityFile := defaults.identityFile);
      }
      r := r + [host];
      k := k + 1;
    }
    assert hosts[..k] == hosts;
  }

  /** The pass over the text is the two-phase reading. */
  method Parse(home: Option<string>, text: string) returns (r: seq<Host>)
    ensures r == Meaning(home, Blocks(Settings(Lines(text))))
  {
    hide HostOf, DefaultsOf, HostsOf, DefaultSettings, SplitLine, KindOf, Holds, Extend, Meaning, Lines, ToDefaults,
      ToHost;
    var defaults := Defaults(None, None, None);
    var hosts: seq<Host> := [];
    var block := InDefaults(Preamble);
    var lines := Lines(text);
    ghost var blocks := Blocks([]);
    HoldsAtTheStart(home);
    var i := 0;
    while i < |lines|
      invariant i <= |lines|
      invariant blocks == Blocks(Settings(lines[..i]))
      invariant Holds(home, blocks, block, hosts, defaults)
    {
      OneLineMore(lines, i);
      var split := SplitLine(lines[i]);
      if split.Some? {
        var s := split.value;
        if IsHeader(s) {
          HoldsAtAHeader(home, blocks, block, hosts, defaults, s);
          if block.InHost? {
            hosts := hosts + [block.entry];
          }
          block := Opened(KindOf(s));
        } else {
          HoldsAtASetting(home, blocks, block, hosts, defaults, s);
          match block {
            case Ignoring =>
            case InDefaults(_) => defaults := ToDefaults(home, defaults, s);
            case InHost(entry) => block := InHost(ToHost(home, entry, s));
          }
        }
        blocks := Extend(blocks, s);
      }
      i := i + 1;
    }
    assert lines[..i] == lines;
    HoldsAtTheEnd(home, blocks, block, hosts, defaults);
    if block.InHost? {
      hosts := hosts + [block.entry];
    }
    r := ApplyDefaults(hosts, defaults);
  }

  lemma HoldsAtTheStart(home: Option<string>)
    ensures Holds(home, Blocks([]), InDefaults(Preamble), [], Defaults(None, None, None))
  {
    assert Blocks([])[..0] == [];
  }

  lemma OneLineMore(lines: seq<string>, i: nat)
    requires i < |lines|
    ensures var s := SplitLine(lines[i]);
      Blocks(Settings(lines[..i + 1]))
      == if s.Some? then Extend(Blocks(Settings(lines[..i])), s.value) else Blocks(Settings(lines[..i]))
  {
    hide SplitLine, Extend;
    assert lines[..i + 1][..i] == lines[..i];
    var before := Settings(lines[..i]);
    var s := SplitLine(lines[i]);
    if s.Some? {
      assert (before + [s.value])[..|before|] == before;
    } else {
      assert before + [] == before;
    }
  }

  // ---------------------------------------------------------------- what a line says

  /** A line in its parts: white space, the keyword, separators, more white space, the value, white
      space, and a comment. */
  datatype Parts = Parts(lead: string, keyword: string, sep: string, gap: string, value: string, trail: string,
    comment: string)

  predicate Separator(c: char) {
    c == ' ' || c == '\t' || c == '='
  }

  function Body(p: Parts): string {
    p.keyword + p.sep + p.gap + p.value
  }

  ghost predicate Spells(line: string, p: Parts) {
    && line == p.lead + Body(p) + p.trail + p.comment
    && '#' !in p.lead + Body(p) + p.trail && (p.comment != [] ==> p.comment[0] == '#')
    && Blank(p.lead) && Blank(p.trail) && Blank(p.gap)
    && (forall i :: 0 <= i < |p.keyword| ==> !Separator(p.keyword[i]))
    && p.sep != [] && (forall i :: 0 <= i < |p.sep| ==> Separator(p.sep[i]))
    && !IsSpace((p.keyword + p.sep)[0])
    && p.value != [] && !IsSpace(p.value[0]) && !IsSpace(p.value[|p.value| - 1])
    && !Separator((p.gap + p.value)[0])
  }

  lemma {:induction false} UpToIs(a: string, b: string, stops: set<char>)
    requires (forall c :: c in a ==> c !in stops) && (b != [] ==> b[0] in stops)
    ensures UpTo(a + b, stops) == a
  {
    if a == [] {
      assert a + b == b;
    } else {
      assert (a + b)[1..] == a[1..] + b;
      UpToIs(a[1..], b, stops);
    }
  }

  lemma {:induction false} AfterIs(a: string, b: string, skipped: set<char>)
    requires (forall c :: c in a ==> c in skipped) && (b != [] ==> b[0] !in skipped)
    ensures After(a + b, skipped) == b
  {
    if a == [] {
      assert a + b == b;
    } else {
      assert (a + b)[1..] == a[1..] + b;
      AfterIs(a[1..], b, skipped);
    }
  }

  /** `After` takes away what it skips and nothing else. */
  lemma {:induction false} AfterLeaves(s: string, skipped: set<char>)
    ensures var rest := After(s, skipped);
            && |rest| <= |s| && rest == s[|s| - |rest|..]
            && (forall i :: 0 <= i < |s| - |rest| ==> s[i] in skipped)
            && (rest != [] ==> rest[0] !in skipped)
  {
    if s != [] && s[0] in skipped {
      AfterLeaves(s[1..], skipped);
    }
  }

  /** A line of that shape says its keyword in lower case and its value, and nothing else counts. */
  lemma ALineIsRead(line: string, p: Parts)
    requires Spells(line, p)
    ensures SplitLine(line) == Some(Setting(Lower(p.keyword), p.value))
  {
    hide IsSpace, Trim, Lower, UpTo, After;
    BareLine(line, p);
    BareIsSplit(p);
  }

  lemma BareLine(line: string, p: Parts)
    requires Spells(line, p)
    ensures Trim(UpTo(line, {'#'})) == Body(p)
  {
    hide IsSpace, Trim, UpTo;
    var body := Body(p);
    var all := p.lead + body + p.trail;
    assert line == all + p.comment;
    UpToIs(all, p.comment, {'#'});
    assert body[0] == (p.keyword + p.sep)[0] && body[|body| - 1] == p.value[|p.value| - 1];
    TrimIs(p.lead, body, p.trail);
  }

  lemma BareIsSplit(p: Parts)
    requires Spells(p.lead + Body(p) + p.trail + p.comment, p)
    ensures var keyword := UpTo(Body(p), {' ', '\t', '='});
            && keyword == p.keyword && keyword != Body(p)
            && Trim(After(Body(p)[|keyword|..], {' ', '\t', '='})) == p.value
  {
    hide IsSpace, Trim, UpTo, After;
    var rest := p.sep + (p.gap + p.value);
    assert Body(p) == p.keyword + rest;
    UpToIs(p.keyword, rest, {' ', '\t', '='});
    assert Body(p)[|p.keyword|..] == rest;
    AfterIs(p.sep, p.gap + p.value, {' ', '\t', '='});
    assert p.gap + p.value + [] == p.gap + p.value;
    TrimIs(p.gap, p.value, []);
  }

  /** And every line that says anything has that shape: a blank line, a comment, a keyword without
      separator or without value say nothing. */
  lemma AReadLineHasParts(line: string) returns (p: Parts)
    requires SplitLine(line).Some?
    ensures Spells(line, p)
  {
    hide IsSpace, Trim, UpTo, After;
    var before := UpTo(line, {'#'});
    var lead, trail := Trimmed(before);
    var keyword, sep, gap, value := SplitParts(Trim(before));
    p := Parts(lead, keyword, sep, gap, value, trail, line[|before|..]);
    assert Body(p) == Trim(before);
    assert line == before + p.comment;
    assert (keyword + sep)[0] == Body(p)[0];
    assert value[|value| - 1] == Body(p)[|Body(p)| - 1];
  }

  /** Where nothing blank is at the end, white space is trimmed from the front alone. */
  lemma Gap(s: string) returns (gap: string)
    requires s != [] ==> !IsSpace(s[|s| - 1])
    ensures s == gap + Trim(s) && Blank(gap)
    ensures Trim(s) != [] ==> !IsSpace(Trim(s)[0])
  {
    hide IsSpace, Trim;
    var trail;
    gap, trail := Trimmed(s);
    if trail != [] {
      assert false;
    }
    assert gap + Trim(s) + [] == gap + Trim(s);
  }

  lemma SplitParts(bare: string) returns (keyword: string, sep: string, gap: string, value: string)
    requires UpTo(bare, {' ', '\t', '='}) != bare
    requires bare != [] ==> !IsSpace(bare[|bare| - 1])
    requires Trim(After(bare[|UpTo(bare, {' ', '\t', '='})|..], {' ', '\t', '='})) != []
    ensures bare == keyword + sep + gap + value
    ensures (forall i :: 0 <= i < |keyword| ==> !Separator(keyword[i]))
    ensures sep != [] && (forall i :: 0 <= i < |sep| ==> Separator(sep[i]))
    ensures Blank(gap) && value != [] && !IsSpace(value[0]) && !Separator((gap + value)[0])
  {
    hide IsSpace, Trim, UpTo, After, Blank;
    var after;
    keyword, sep, after := SplitAtSeparators(bare);
    assert after != [] ==> after[|after| - 1] == bare[|bare| - 1];
    gap := Gap(after);
    value := Trim(after);
    assert gap + value == after;
  }

  lemma SplitAtSeparators(bare: string) returns (keyword: string, sep: string, after: string)
    requires UpTo(bare, {' ', '\t', '='}) != bare
    ensures keyword == UpTo(bare, {' ', '\t', '='}) && after == After(bare[|keyword|..], {' ', '\t', '='})
    ensures bare == keyword + sep + after
    ensures forall i :: 0 <= i < |keyword| ==> !Separator(keyword[i])
    ensures sep != [] && forall i :: 0 <= i < |sep| ==> Separator(sep[i])
    ensures after != [] ==> !Separator(after[0])
  {
    hide UpTo, After;
    keyword := UpTo(bare, {' ', '\t', '='});
    assert forall i :: 0 <= i < |keyword| ==> keyword[i] in keyword;
    var rest := bare[|keyword|..];
    AfterLeaves(rest, {' ', '\t', '='});
    after := After(rest, {' ', '\t', '='});
    sep := rest[..|rest| - |after|];
    assert rest == sep + after && bare == keyword + rest && rest[0] == bare[|keyword|];
  }

  /** `None` exactly for the lines that have no such shape. */
  lemma WhenALineSaysNothing(line: string)
    ensures SplitLine(line).None? <==> forall p :: !Spells(line, p)
  {
    if SplitLine(line).Some? {
      var p := AReadLineHasParts(line);
    } else {
      forall p ensures !Spells(line, p) {
        if Spells(line, p) {
          ALineIsRead(line, p);
        }
      }
    }
  }

  /** Two spellings that differ at most in the case of the letters A to Z. */
  predicate SameButForCase(a: string, b: string) {
    && |a| == |b|
    && forall i :: 0 <= i < |a| ==>
         || a[i] == b[i]
         || ('A' <= a[i] <= 'Z' && 'a' <= b[i] <= 'z' && a[i] as int - 'A' as int == b[i] as int - 'a' as int)
         || ('a' <= a[i] <= 'z' && 'A' <= b[i] <= 'Z' && a[i] as int - 'a' as int == b[i] as int - 'A' as int)
  }

  /** Case is what lowering takes away, and all it takes away. */
  lemma LowerForgetsCase(a: string, b: string)
    ensures Lower(a) == Lower(b) <==> SameButForCase(a, b)
    ensures (forall i :: 0 <= i < |a| ==> !('A' <= a[i] <= 'Z')) ==> Lower(a) == a
  {
    if Lower(a) == Lower(b) {
      assert |a| == |Lower(a)| == |b|;
      forall i | 0 <= i < |a|
        ensures || a[i] == b[i]
                || ('A' <= a[i] <= 'Z' && 'a' <= b[i] <= 'z' && a[i] as int - 'A' as int == b[i] as int - 'a' as int)
                || ('a' <= a[i] <= 'z' && 'A' <= b[i] <= 'Z' && a[i] as int - 'a' as int == b[i] as int - 'A' as int)
      {
        assert Lower(a)[i] == Lower(b)[i];
      }
    }
  }

  // ---------------------------------------------------------------- what a header opens

  predicate Word(s: string) {
    s != [] && forall i :: 0 <= i < |s| ==> !IsSpace(s[i])
  }

  lemma {:induction false} UpToSpaceIs(word: string, rest: string)
    requires (forall i :: 0 <= i < |word| ==> !IsSpace(word[i])) && (rest != [] ==> IsSpace(rest[0]))
    ensures UpToSpace(word + rest) == word
  {
    hide IsSpace;
    if word == [] {
      assert word + rest == rest;
    } else {
      assert (word + rest)[1..] == word[1..] + rest;
      UpToSpaceIs(word[1..], rest);
    }
  }

  lemma {:induction false} TrimStartIs(lead: string, rest: string)
    requires Blank(lead) && (rest != [] ==> !IsSpace(rest[0]))
    ensures TrimStart(lead + rest) == rest
  {
    hide IsSpace;
    if lead == [] {
      assert lead + rest == rest;
    } else {
      assert (lead + rest)[1..] == lead[1..] + rest;
      TrimStartIs(lead[1..], rest);
    }
  }

  /** A header that names one word opens a host of that name, or the defaults if the word is a star
      alone, or nothing if it is another pattern. */
  lemma OneNameOpensAHost(lead: string, word: string, trail: string)
    requires Blank(lead) && Word(word) && Blank(trail)
    ensures OpenHost(lead + word + trail)
            == if word == "*" then Wildcard
               else if exists c :: c in word && (c == '*' || c == '?' || c == '!') then Skipped
               else Named(word)
  {
    hide IsSpace, Words;
    OneWord(lead, word, trail);
  }

  lemma OneWord(lead: string, word: string, trail: string)
    requires Blank(lead) && Word(word) && Blank(trail)
    ensures Words(lead + word + trail) == [word]
  {
    hide IsSpace, TrimStart, UpToSpace, Trim;
    var s, t := lead + word + trail, word + trail;
    assert s == lead + t;
    TrimStartIs(lead, t);
    UpToSpaceIs(word, trail);
    assert t[|word|..] == trail;
    BlankIsTrimmed(trail);
    assert Words(trail) == [];
    assert Words(s) == [word] + Words(trail);
  }

  /** Any other header opens nothing. */
  lemma SeveralNamesOpenNothing(value: string) returns (lead: string, word: string, trail: string)
    ensures OpenHost(value).Skipped? || (value == lead + word + trail && Blank(lead) && Word(word) && Blank(trail))
  {
    hide IsSpace, TrimStart, UpToSpace;
    var t := TrimStart(value);
    word := UpToSpace(t);
    lead, trail := value[..|value| - |t|], t[|word|..];
    UpToSpaceStops(t);
    if |Words(value)| == 1 {
      assert Words(value) == [word] + Words(trail);
      assert TrimStart(trail) == [];
      assert value == lead + t && t == word + trail;
    }
  }

  lemma {:induction false} UpToSpaceStops(s: string)
    ensures UpToSpace(s) <= s && forall i :: 0 <= i < |UpToSpace(s)| ==> !IsSpace(UpToSpace(s)[i])
  {
    hide IsSpace;
    if s != [] && !IsSpace(s[0]) {
      UpToSpaceStops(s[1..]);
    }
  }

  // ---------------------------------------------------------------- what a port is

  predicate Zeros(s: string) {
    forall i :: 0 <= i < |s| ==> s[i] == '0'
  }

  lemma {:induction false} LeadingZeros(zeros: string, s: string)
    requires Zeros(zeros) && Digits(s)
    ensures Digits(zeros + s) && Numeral(zeros + s) == Numeral(s)
  {
    if s != [] {
      assert (zeros + s)[..|zeros + s| - 1] == zeros + s[..|s| - 1];
      LeadingZeros(zeros, s[..|s| - 1]);
    } else if zeros != [] {
      assert (zeros + s)[..|zeros| - 1] == zeros[..|zeros| - 1] + s;
      LeadingZeros(zeros[..|zeros| - 1], s);
    }
  }

  lemma {:induction false} NumeralIsDecimal(s: string) returns (zeros: string)
    requires Digits(s) && s != []
    ensures Zeros(zeros) && s == zeros + Decimal(Numeral(s))
  {
    var n := |s| - 1;
    var last := s[n] as int - '0' as int;
    assert s == s[..n] + [s[n]];
    if n == 0 {
      zeros := [];
    } else {
      zeros := NumeralIsDecimal(s[..n]);
      var high := Numeral(s[..n]);
      assert Numeral(s) == high * 10 + last && Numeral(s) / 10 == high && Numeral(s) % 10 == last;
      if high == 0 {
        assert Decimal(high) == "0";
        zeros := zeros + "0";
      }
    }
  }

  /** A port is read from exactly the decimal spellings of the numbers up to 65535, with any leading
      zeros and one plus sign at most. */
  lemma APortIsRead(plus: bool, zeros: string, n: nat)
    requires Zeros(zeros)
    ensures ParsePort((if plus then "+" else []) + zeros + Decimal(n)) == if n <= 65535 then Some(n) else None
  {
    hide Decimal, Numeral;
    DecimalIsRead(n);
    LeadingZeros(zeros, Decimal(n));
    var value := (if plus then "+" else []) + zeros + Decimal(n);
    assert plus ==> value[1..] == zeros + Decimal(n);
    assert !plus ==> value == zeros + Decimal(n);
  }

  lemma AReadPort(value: string) returns (plus: bool, zeros: string)
    requires ParsePort(value).Some?
    ensures Zeros(zeros) && ParsePort(value).value <= 65535
    ensures value == (if plus then "+" else []) + zeros + Decimal(ParsePort(value).value)
  {
    hide Decimal, Numeral, Zeros;
    plus := value[0] == '+';
    zeros := NumeralIsDecimal(if plus then value[1..] else value);
  }

  /** A path that starts in the home directory is put there; any other is left as it is. */
  lemma TildeIsTheHomeDirectory(home: string, rest: string)
    requires home != [] && home[|home| - 1] != '/' && (rest != [] ==> rest[0] != '/')
    ensures ExpandTilde(Some(home), "~/" + rest) == home + "/" + rest
    ensures ExpandTilde(None, "~/" + rest) == "~/" + rest
    ensures forall path: string, h: Option<string> :: !("~/" <= path) ==> ExpandTilde(h, path) == path
  {
    assert ("~/" + rest)[..2] == "~/";
  }

  // ---------------------------------------------------------------- what a block says

  ghost predicate LastOf(settings: seq<Setting>, keyword: string, k: nat) {
    && k < |settings| && settings[k].keyword == keyword
    && forall later :: k < later < |settings| ==> settings[later].keyword != keyword
  }

  ghost predicate FirstOf(settings: seq<Setting>, keyword: string, k: nat) {
    && k < |settings| && settings[k].keyword == keyword
    && forall earlier :: 0 <= earlier < k ==> settings[earlier].keyword != keyword
  }

  ghost predicate NoneOf(settings: seq<Setting>, keyword: string) {
    forall k :: 0 <= k < |settings| ==> settings[k].keyword != keyword
  }

  /** The port a block keeps: the last that can be read. */
  ghost predicate LastReadable(settings: seq<Setting>, k: nat) {
    && k < |settings| && settings[k].keyword == "port" && ParsePort(settings[k].value).Some?
    && forall later :: k < later < |settings| && settings[later].keyword == "port" ==>
         ParsePort(settings[later].value).None?
  }

  lemma {:induction false} LastMeaning(settings: seq<Setting>, keyword: string, k: nat)
    ensures LastOf(settings, keyword, k) ==> Last(settings, keyword) == Some(settings[k].value)
    ensures NoneOf(settings, keyword) ==> Last(settings, keyword) == None
    ensures LastReadable(settings, k) ==> LastPort(settings) == ParsePort(settings[k].value)
    ensures (forall i :: 0 <= i < |settings| && settings[i].keyword == "port" ==>
                ParsePort(settings[i].value).None?) ==> LastPort(settings) == None
    decreases |settings|
  {
    hide ParsePort;
    if settings != [] {
      LastMeaning(settings[..|settings| - 1], keyword, k);
    }
  }

  lemma {:induction false} FirstMeaning(settings: seq<Setting>, keyword: string, k: nat)
    ensures FirstOf(settings, keyword, k) ==> First(settings, keyword) == Some(settings[k].value)
    ensures NoneOf(settings, keyword) ==> First(settings, keyword) == None
    decreases |settings|
  {
    if settings != [] {
      FirstMeaning(settings[1..], keyword, if k > 0 then k - 1 else 0);
      assert k > 0 && FirstOf(settings, keyword, k) ==> FirstOf(settings[1..], keyword, k - 1);
      assert NoneOf(settings, keyword) ==> NoneOf(settings[1..], keyword);
    }
  }

  /** Which setting of a block fills which field of its host: the last of each keyword, but the first
      identity file, and the last port that can be read.  The name stands in for a missing address. */
  lemma WhatAHostBlockSays(home: Option<string>, alias: string, settings: seq<Setting>, k: nat)
    ensures var host := HostOf(home, alias, settings);
            && host.alias == alias
            && (LastOf(settings, "hostname", k) ==> host.hostname == settings[k].value)
            && (NoneOf(settings, "hostname") ==> host.hostname == alias)
            && (LastOf(settings, "user", k) ==> host.user == Some(settings[k].value))
            && (NoneOf(settings, "user") ==> host.user == None)
            && (LastReadable(settings, k) ==> host.port == ParsePort(settings[k].value))
            && (NoneOf(settings, "port") ==> host.port == None)
            && (FirstOf(settings, "identityfile", k) ==>
                  host.identityFile == Some(ExpandTilde(home, settings[k].value)))
            && (NoneOf(settings, "identityfile") ==> host.identityFile == None)
  {
    hide Last, First, LastPort, ParsePort, ExpandTilde;
    LastMeaning(settings, "hostname", k);
    LastMeaning(settings, "user", k);
    FirstMeaning(settings, "identityfile", k);
  }

  /** The same for the defaults, where the last identity file counts and the last port does even if it
      cannot be read. */
  lemma WhatTheDefaultsSay(home: Option<string>, settings: seq<Setting>, k: nat)
    ensures var defaults := DefaultsOf(home, settings);
            && (LastOf(settings, "user", k) ==> defaults.user == Some(settings[k].value))
            && (NoneOf(settings, "user") ==> defaults.user == None)
            && (LastOf(settings, "port", k) ==> defaults.port == ParsePort(settings[k].value))
            && (NoneOf(settings, "port") ==> defaults.port == None)
            && (LastOf(settings, "identityfile", k) ==>
                  defaults.identityFile == Some(ExpandTilde(home, settings[k].value)))
            && (NoneOf(settings, "identityfile") ==> defaults.identityFile == None)
  {
    hide Last, ParsePort, ExpandTilde;
    LastMeaning(settings, "user", k);
    LastMeaning(settings, "port", k);
    LastMeaning(settings, "identityfile", k);
  }

  /** Every block with a name is a host, in the order of the file; what stands before the first block
      and in a block for all hosts goes to the defaults; nothing else goes anywhere. */
  lemma WhichBlocksCount(home: Option<string>, blocks: seq<Block>, block: Block)
    ensures HostsOf(home, blocks + [block])
         == HostsOf(home, blocks)
            + if block.kind.Named? then [HostOf(home, block.kind.alias, block.settings)] else []
    ensures DefaultSettings(blocks + [block])
         == DefaultSettings(blocks)
            + if block.kind == Preamble || block.kind == Wildcard then block.settings else []
  {
    hide HostOf;
    assert (blocks + [block])[..|blocks|] == blocks;
  }

  /** What a host says for itself stands; the defaults only fill the gaps, and never its name or
      address. */
  lemma TheDefaultsFillGaps(home: Option<string>, blocks: seq<Block>, i: nat)
    requires i < |HostsOf(home, blocks)|
    ensures |Meaning(home, blocks)| == |HostsOf(home, blocks)|
    ensures var own, all := HostsOf(home, blocks)[i], DefaultsOf(home, DefaultSettings(blocks));
            var host := Meaning(home, blocks)[i];
            && host.alias == own.alias && host.hostname == own.hostname
            && (own.user.Some? ==> host.user == own.user) && (own.user.None? ==> host.user == all.user)
            && (own.port.Some? ==> host.port == own.port) && (own.port.None? ==> host.port == all.port)
            && (own.identityFile.Some? ==> host.identityFile == own.identityFile)
            && (own.identityFile.None? ==> host.identityFile == all.identityFile)
  {
    hide HostsOf, DefaultsOf, DefaultSettings;
  }

  /** A header starts a block, and `Match` one that says nothing; any other setting belongs to the
      block it stands in. */
  lemma WhereASettingBelongs(before: seq<Setting>, s: Setting)
    ensures var blocks, after := Blocks(before), Blocks(before + [s]);
            var n := |blocks| - 1;
            && (s.keyword == "host" ==> after == blocks + [Block(OpenHost(s.value), [])])
            && (s.keyword == "match" ==> after == blocks + [Block(Skipped, [])])
            && (s.keyword != "host" && s.keyword != "match" ==>
                  after == blocks[..n] + [Block(blocks[n].kind, blocks[n].settings + [s])])
  {
    hide OpenHost;
    OneSettingMore(before, s);
  }

  lemma FirstLine(line: string, rest: string)
    requires '\n' !in line
    ensures Lines(line + "\n" + rest) == [line] + Lines(rest)
  {
    var text := line + "\n" + rest;
    assert text == line + ("\n" + rest);
    UpToIs(line, "\n" + rest, {'\n'});
    assert text[|line| + 1..] == rest;
  }

  function TextOf(lines: seq<string>): string {
    if lines == [] then [] else lines[0] + "\n" + TextOf(lines[1..])
  }

  /** A text of whole lines is read line by line. */
  lemma {:induction false} LinesAreRead(lines: seq<string>)
    requires forall i :: 0 <= i < |lines| ==> '\n' !in lines[i]
    ensures Lines(TextOf(lines)) == lines
  {
    if lines != [] {
      hide Lines;
      LinesAreRead(lines[1..]);
      FirstLine(lines[0], TextOf(lines[1..]));
      assert lines == [lines[0]] + lines[1..];
    } else {
      assert Lines([]) == [];
    }
  }

  lemma {:induction false} SpelledLinesAreRead(lines: seq<string>, parts: seq<Parts>)
    requires |lines| == |parts| && forall i :: 0 <= i < |lines| ==> Spells(lines[i], parts[i])
    ensures |Settings(lines)| == |lines|
    ensures forall i :: 0 <= i < |lines| ==> Settings(lines)[i] == Setting(Lower(parts[i].keyword), parts[i].value)
  {
    hide SplitLine, Spells, Lower;
    if lines != [] {
      var n := |lines| - 1;
      SpelledLinesAreRead(lines[..n], parts[..n]);
      ALineIsRead(lines[n], parts[n]);
    }
  }

  /** The usual block, in any spelling of its keywords, with any white space, separators and comments:
      it is imported with exactly what it says. */
  lemma AUsualBlockIsAHost(home: Option<string>, lines: seq<string>, parts: seq<Parts>, zeros: string, n: nat)
    requires |lines| == |parts| == 5
    requires forall i :: 0 <= i < 5 ==> '\n' !in lines[i] && Spells(lines[i], parts[i])
    requires SameButForCase(parts[0].keyword, "Host") && SameButForCase(parts[1].keyword, "HostName")
    requires SameButForCase(parts[2].keyword, "User") && SameButForCase(parts[3].keyword, "Port")
    requires SameButForCase(parts[4].keyword, "IdentityFile")
    requires Word(parts[0].value) && forall c :: c in parts[0].value ==> c != '*' && c != '?' && c != '!'
    requires Zeros(zeros) && n <= 65535 && parts[3].value == zeros + Decimal(n)
    ensures Meaning(home, Blocks(Settings(Lines(TextOf(lines)))))
            == [Host(parts[0].value, parts[1].value, Some(parts[2].value), Some(n),
                     Some(ExpandTilde(home, parts[4].value)))]
  {
    hide Spells, Lower, SameButForCase, Lines, TextOf, ExpandTilde, ParsePort, OpenHost, Decimal, Zeros, Meaning,
      Blocks, Settings;
    LinesAreRead(lines);
    SpelledLinesAreRead(lines, parts);
    LowerNames();
    LowerForgetsCase(parts[0].keyword, "Host");
    LowerForgetsCase(parts[1].keyword, "HostName");
    LowerForgetsCase(parts[2].keyword, "User");
    LowerForgetsCase(parts[3].keyword, "Port");
    LowerForgetsCase(parts[4].keyword, "IdentityFile");
    var name := parts[0].value;
    OneNameOpensAHost([], name, []);
    assert '*' in "*";
    assert [] + name + [] == name;
    APortIsRead(false, zeros, n);
    assert [] + zeros + Decimal(n) == zeros + Decimal(n);
    var settings := Settings(lines);
    assert settings[0] == Setting("host", name) && settings[1].keyword == "hostname";
    assert settings[3].value == zeros + Decimal(n);
    UsualSettings(home, settings);
  }

  lemma LowerNames()
    ensures Lower("Host") == "host" && Lower("HostName") == "hostname" && Lower("User") == "user"
    ensures Lower("Port") == "port" && Lower("IdentityFile") == "identityfile"
  {
  }

  lemma UsualSettings(home: Option<string>, settings: seq<Setting>)
    requires |settings| == 5
    requires settings[0].keyword == "host" && OpenHost(settings[0].value) == Named(settings[0].value)
    requires settings[1].keyword == "hostname" && settings[2].keyword == "user"
    requires settings[3].keyword == "port" && ParsePort(settings[3].value).Some?
    requires settings[4].keyword == "identityfile"
    ensures Meaning(home, Blocks(settings))
            == [Host(settings[0].value, settings[1].value, Some(settings[2].value), ParsePort(settings[3].value),
                     Some(ExpandTilde(home, settings[4].value)))]
  {
    hide OpenHost, ParsePort, ExpandTilde, HostOf, HostsOf, DefaultSettings, Blocks, Digits, Numeral;
    var inside := settings[1..];
    OneBlock(settings);
    var blocks := [Block(Preamble, []), Block(Named(settings[0].value), inside)];
    TwoBlocks(home, settings[0].value, inside);
    WhatAHostBlockSays(home, settings[0].value, inside, 0);
    WhatAHostBlockSays(home, settings[0].value, inside, 1);
    WhatAHostBlockSays(home, settings[0].value, inside, 2);
    WhatAHostBlockSays(home, settings[0].value, inside, 3);
  }

  lemma TwoBlocks(home: Option<string>, alias: string, inside: seq<Setting>)
    ensures var blocks := [Block(Preamble, []), Block(Named(alias), inside)];
            HostsOf(home, blocks) == [HostOf(home, alias, inside)] && DefaultSettings(blocks) == []
  {
    hide HostOf;
    var first, second := Block(Preamble, []), Block(Named(alias), inside);
    assert [first][..0] == [];
    assert HostsOf(home, [first]) == [];
    assert DefaultSettings([first][..0]) == [];
    assert DefaultSettings([first]) == DefaultSettings([first][..0]) + first.settings;
    assert DefaultSettings([first, second]) == DefaultSettings([first]) + [];
    assert [first, second][..1] == [first];
  }

  lemma {:induction false} OneBlock(settings: seq<Setting>)
    requires settings != [] && settings[0].keyword == "host"
    requires forall i :: 1 <= i < |settings| ==> !IsHeader(settings[i])
    ensures Blocks(settings) == [Block(Preamble, []), Block(OpenHost(settings[0].value), settings[1..])]
    decreases |settings|
  {
    hide OpenHost, Blocks;
    var n := |settings| - 1;
    var before := settings[..n];
    assert settings == before + [settings[n]];
    WhereASettingBelongs(before, settings[n]);
    if n == 0 {
      NoSettings();
      assert before == [] && settings[1..] == [];
    } else {
      OneBlock(before);
      assert before[1..] + [settings[n]] == settings[1..];
    }
  }

  lemma NoSettings()
    ensures Blocks([]) == [Block(Preamble, [])]
  {
  }

  // ---------------------------------------------------------------- what does not matter

  ghost predicate AlikeAt(a: Block, b: Block) {
    a.kind == b.kind && (!a.kind.Skipped? ==> a == b)
  }

  /** The same blocks, but for what stands in skipped ones. */
  ghost predicate Alike(a: seq<Block>, b: seq<Block>) {
    |a| == |b| && forall i :: 0 <= i < |a| ==> AlikeAt(a[i], b[i])
  }

  lemma {:induction false} AlikeMeansTheSame(home: Option<string>, a: seq<Block>, b: seq<Block>)
    requires Alike(a, b)
    ensures HostsOf(home, a) == HostsOf(home, b) && DefaultSettings(a) == DefaultSettings(b)
  {
    if a != [] {
      var n := |a| - 1;
      assert AlikeAt(a[n], b[n]);
      AlikeMeansTheSame(home, a[..n], b[..n]);
    }
  }

  lemma AlikeExtends(a: seq<Block>, b: seq<Block>, s: Setting)
    requires Alike(a, b) && |a| > 0
    ensures Alike(Extend(a, s), Extend(b, s))
  {
    assert AlikeAt(a[|a| - 1], b[|a| - 1]);
  }

  lemma OneSettingMore(settings: seq<Setting>, s: Setting)
    ensures Blocks(settings + [s]) == Extend(Blocks(settings), s)
  {
    assert (settings + [s])[..|settings|] == settings;
  }

  lemma {:induction false} AlikeStays(a: seq<Setting>, b: seq<Setting>, more: seq<Setting>)
    requires Alike(Blocks(a), Blocks(b))
    ensures Alike(Blocks(a + more), Blocks(b + more))
    decreases |more|
  {
    hide Alike, Extend, Blocks;
    if more == [] {
      assert a + more == a && b + more == b;
    } else {
      OneSettingMore(a, more[0]);
      OneSettingMore(b, more[0]);
      AlikeExtends(Blocks(a), Blocks(b), more[0]);
      AlikeStays(a + [more[0]], b + [more[0]], more[1..]);
      assert a + [more[0]] + more[1..] == a + more;
      assert b + [more[0]] + more[1..] == b + more;
    }
  }

  /** A setting in a skipped block can be taken out, whatever it says. */
  lemma SkippedSettingsDoNotMatter(home: Option<string>, a: seq<Setting>, x: Setting, b: seq<Setting>)
    requires !IsHeader(x) && Blocks(a)[|Blocks(a)| - 1].kind.Skipped?
    ensures Meaning(home, Blocks(a + [x] + b)) == Meaning(home, Blocks(a + b))
  {
    assert (a + [x])[..|a|] == a;
    assert Alike(Blocks(a + [x]), Blocks(a));
    AlikeStays(a + [x], a, b);
    AlikeMeansTheSame(home, Blocks(a + [x] + b), Blocks(a + b));
  }

  /** Blocks do not reach across a header. */
  lemma {:induction false} BlocksAfterAHeader(a: seq<Setting>, b: seq<Setting>)
    requires b != [] ==> IsHeader(b[0])
    ensures Blocks(a + b) == Blocks(a) + Blocks(b)[1..]
    ensures Blocks(b)[0] == Block(Preamble, []) && (b != [] ==> |Blocks(b)| > 1)
  {
    if b == [] {
      assert a + b == a;
    } else {
      hide Extend, IsHeader;
      var n := |b| - 1;
      BlocksAfterAHeader(a, b[..n]);
      assert (a + b)[..|a + b| - 1] == a + b[..n];
      ExtendsBehind(Blocks(a), Blocks(b[..n]), b[n]);
    }
  }

  lemma ExtendsBehind(a: seq<Block>, b: seq<Block>, s: Setting)
    requires |a| > 0 && |b| > 0 && (|b| == 1 ==> IsHeader(s))
    ensures Extend(a + b[1..], s) == a + Extend(b, s)[1..] && Extend(b, s)[0] == b[0] && |Extend(b, s)| > 1
  {
  }

  lemma {:induction false} MeaningConcat(home: Option<string>, a: seq<Block>, b: seq<Block>)
    ensures HostsOf(home, a + b) == HostsOf(home, a) + HostsOf(home, b)
    ensures DefaultSettings(a + b) == DefaultSettings(a) + DefaultSettings(b)
  {
    if b == [] {
      assert a + b == a;
    } else {
      hide HostOf;
      var n := |b| - 1;
      assert (a + b)[..|a + b| - 1] == a + b[..n];
      MeaningConcat(home, a, b[..n]);
    }
  }

  lemma {:induction false} WithoutDefaults(blocks: seq<Block>)
    requires forall i :: 0 <= i < |blocks| ==> !IsDefault(blocks[i].kind)
    ensures DefaultSettings(blocks) == []
  {
    if blocks != [] {
      WithoutDefaults(blocks[..|blocks| - 1]);
    }
  }

  lemma {:induction false} WithoutHosts(home: Option<string>, blocks: seq<Block>)
    requires forall i :: 0 <= i < |blocks| ==> !blocks[i].kind.Named?
    ensures HostsOf(home, blocks) == []
  {
    if blocks != [] {
      WithoutHosts(home, blocks[..|blocks| - 1]);
    }
  }

  /** Every block of `settings` after the empty preamble has a kind its header gives it. */
  lemma {:induction false} KindsComeFromHeaders(settings: seq<Setting>, i: nat)
    requires 1 <= i < |Blocks(settings)|
    ensures exists k :: 0 <= k < |settings| && IsHeader(settings[k]) && KindOf(settings[k]) == Blocks(settings)[i].kind
  {
    hide KindOf, IsHeader;
    var n := |settings| - 1;
    var before := Blocks(settings[..n]);
    if i < |before| {
      KindsComeFromHeaders(settings[..n], i);
      var k :| 0 <= k < n && IsHeader(settings[..n][k]) && KindOf(settings[..n][k]) == before[i].kind;
      assert settings[k] == settings[..n][k];
    } else {
      assert IsHeader(settings[n]);
    }
  }

  /** Where a `Host *` block stands does not matter, as long as it is not moved past another: the
      specific blocks always win. */
  lemma MovingTheDefaultsChangesNothing(home: Option<string>, a: seq<Setting>, w: seq<Setting>, q: seq<Setting>,
      r: seq<Setting>)
    requires w != [] && IsHeader(w[0]) && forall k :: 0 <= k < |w| && IsHeader(w[k]) ==> KindOf(w[k]).Wildcard?
    requires q != [] ==> IsHeader(q[0])
    requires forall k :: 0 <= k < |q| && IsHeader(q[k]) ==> !KindOf(q[k]).Wildcard?
    requires r != [] ==> IsHeader(r[0])
    ensures Meaning(home, Blocks(a + w + q + r)) == Meaning(home, Blocks(a + q + w + r))
  {
    hide IsHeader, KindOf, Blocks, HostsOf, DefaultSettings, HostOf, DefaultsOf, ResolvedAll;
    var A, W, Q, R := Blocks(a), Blocks(w)[1..], Blocks(q)[1..], Blocks(r)[1..];
    BlocksAfterAHeader(a, w);
    BlocksAfterAHeader(a + w, q);
    BlocksAfterAHeader(a + w + q, r);
    BlocksAfterAHeader(a, q);
    BlocksAfterAHeader(a + q, w);
    BlocksAfterAHeader(a + q + w, r);
    forall i | 0 <= i < |Q| ensures !IsDefault(Q[i].kind) {
      KindsComeFromHeaders(q, i + 1);
      HeadersAreNotPreambles(q);
    }
    forall i | 0 <= i < |W| ensures !W[i].kind.Named? {
      KindsComeFromHeaders(w, i + 1);
    }
    WithoutDefaults(Q);
    WithoutHosts(home, W);
    SwapMeaning(home, A, W, Q, R);
  }

  lemma HeadersAreNotPreambles(q: seq<Setting>)
    ensures forall k :: 0 <= k < |q| ==> !KindOf(q[k]).Preamble?
  {
  }

  lemma SwapMeaning(home: Option<string>, a: seq<Block>, w: seq<Block>, q: seq<Block>, r: seq<Block>)
    requires DefaultSettings(q) == [] && HostsOf(home, w) == []
    ensures Meaning(home, a + w + q + r) == Meaning(home, a + q + w + r)
  {
    hide HostsOf, DefaultSettings, HostOf, DefaultsOf, ResolvedAll;
    MeaningConcat(home, a + w + q, r);
    MeaningConcat(home, a + w, q);
    MeaningConcat(home, a, w);
    MeaningConcat(home, a + q + w, r);
    MeaningConcat(home, a + q, w);
    MeaningConcat(home, a, q);
    assert HostsOf(home, a + w + q + r) == HostsOf(home, a) + HostsOf(home, q) + HostsOf(home, r);
    assert HostsOf(home, a + q + w + r) == HostsOf(home, a) + HostsOf(home, q) + HostsOf(home, r);
    assert DefaultSettings(a + w + q + r) == DefaultSettings(a) + DefaultSettings(w) + DefaultSettings(r);
    assert DefaultSettings(a + q + w + r) == DefaultSettings(a) + DefaultSettings(w) + DefaultSettings(r);
  }

  /** A default port that cannot be read erases the one before it, where a host's own port would
      have been kept. */
  lemma AnUnreadablePort(home: Option<string>, alias: string, settings: seq<Setting>, value: string)
    requires ParsePort(value).None?
    ensures DefaultsOf(home, settings + [Setting("port", value)]).port == None
    ensures HostOf(home, alias, settings + [Setting("port", value)]).port == HostOf(home, alias, settings).port
  {
    DefaultsGrow(home, settings, Setting("port", value));
    HostGrows(home, alias, settings, Setting("port", value));
  }
}
