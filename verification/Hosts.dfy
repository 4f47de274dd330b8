/** The one line conform owns in the impure overlay: the allowlist of git hosts. */
module Hosts {
  import opened Optional
  import opened Strings

  // ---- the managed line ----

  function Opening(): string {
    "linters.git-remotes.allowed-hosts = ["
  }

  function Closing(): string {
    "]; # managed by " + ByWhom()
  }

  function ByWhom(): (s: string)
    ensures '\n' !in s && s != "" && s[|s| - 1] == ')'
  {
    "`conformist conform`" + " (--allow-host)"
  }

  // What the pattern of the managed line takes for white space.
  predicate Space(c: char) {
    c in {' ', '\t', '\n', '\r', 12 as char}
  }

  predicate Blank(s: string) {
    forall c :: c in s ==> Space(c)
  }

  function Leading(s: string): (k: nat)
    ensures k <= |s| && Blank(s[..k]) && (k < |s| ==> !Space(s[k]))
  {
    if s == "" || !Space(s[0]) then 0
    else
      assert s[..1 + Leading(s[1..])] == [s[0]] + s[1..][..Leading(s[1..])];
      1 + Leading(s[1..])
  }

  // The length without trailing white space.
  function Trimmed(s: string): (k: nat)
    ensures k <= |s| && Blank(s[k..]) && (k > 0 ==> !Space(s[k - 1]))
  {
    if s == "" then 0
    else if !Space(s[|s| - 1]) then |s|
    else
      var k := Trimmed(s[..|s| - 1]);
      assert s[k..] == s[..|s| - 1][k..] + [s[|s| - 1]];
      k
  }

  datatype Line = Line(indent: string, inner: string)

  // Whether the line is the managed one, and its indent and bracketed text.
  function Recognized(line: string): Option<Line> {
    var a, b, o, c := Leading(line), Trimmed(line), |Opening()|, |Closing()|;
    if a + o + c <= b && line[a..a + o] == Opening() && line[b - c..b] == Closing() then Some(Line(line[..a], line[a + o..b - c]))
    else None
  }

  lemma BlankAt(s: string, a: nat, b: nat)
    requires a <= b <= |s| && Blank(s[a..b])
    ensures forall i :: a <= i < b ==> Space(s[i])
  {
    hide Space;
    assert forall i :: a <= i < b ==> s[a..b][i - a] == s[i] && s[a..b][i - a] in s[a..b];
  }

  lemma LeadingIs(s: string, k: nat)
    requires k <= |s| && Blank(s[..k]) && k < |s| && !Space(s[k])
    ensures Leading(s) == k
  {
    hide Space, Blank;
    BlankAt(s, 0, k);
    BlankAt(s, 0, Leading(s));
  }

  lemma TrimmedIs(s: string, k: nat)
    requires 0 < k <= |s| && Blank(s[k..]) && !Space(s[k - 1])
    ensures Trimmed(s) == k
  {
    hide Space, Blank;
    var n := Trimmed(s);
    assert s[k..|s|] == s[k..] && s[n..|s|] == s[n..];
    BlankAt(s, k, |s|);
    BlankAt(s, n, |s|);
  }

  lemma OpeningShape()
    ensures |Opening()| > 0 && !Space(Opening()[0]) && '\n' !in Opening()
  {}

  lemma ClosingShape()
    ensures |Closing()| > 0 && !Space(Closing()[|Closing()| - 1]) && '\n' !in Closing()
  {
    hide ByWhom;
  }

  // A line of this shape is recognized, whatever white space follows it.
  lemma ShapeRecognized(indent: string, inner: string, trailing: string)
    requires Blank(indent) && Blank(trailing)
    ensures Recognized(indent + Opening() + inner + Closing() + trailing) == Some(Line(indent, inner))
  {
    hide Opening, Closing, Space, Leading, Trimmed;
    OpeningShape();
    ClosingShape();
    var line := indent + Opening() + inner + Closing() + trailing;
    var o, c, a := |Opening()|, |Closing()|, |indent|;
    var b := a + o + |inner| + c;
    assert line[..a] == indent && line[a..a + o] == Opening() && line[a + o..b - c] == inner;
    assert line[b - c..b] == Closing() && line[b..] == trailing;
    assert line[a] == Opening()[0] && line[b - 1] == Closing()[c - 1];
    LeadingIs(line, a);
    TrimmedIs(line, b);
  }

  predicate Shaped(line: string, l: Line, trailing: string) {
    Blank(l.indent) && Blank(trailing) && line == l.indent + Opening() + l.inner + Closing() + trailing
  }

  lemma RecognizedShape(line: string, l: Line)
    requires Recognized(line) == Some(l)
    ensures Shaped(line, l, line[Trimmed(line)..])
  {
    hide Opening, Closing, Leading, Trimmed, Blank;
  }

  /** Exactly the lines of this shape are recognized, each with one indent and bracketed text. */
  lemma RecognizedIff(line: string, l: Line)
    ensures Recognized(line) == Some(l) <==> exists trailing :: Shaped(line, l, trailing)
  {
    hide Opening, Closing, Recognized, Trimmed, Blank;
    if Recognized(line) == Some(l) {
      RecognizedShape(line, l);
    }
    if exists trailing :: Shaped(line, l, trailing) {
      var trailing :| Shaped(line, l, trailing);
      ShapeRecognized(l.indent, l.inner, trailing);
    }
  }

  // ---- quoted hosts ----

  // The run of characters before the next quote.
  function Unquoted(s: string): (k: nat)
    ensures k <= |s| && (forall i :: 0 <= i < k ==> s[i] != '"') && (k < |s| ==> s[k] == '"')
  {
    if s == "" || s[0] == '"' then 0 else 1 + Unquoted(s[1..])
  }

  // Every non-empty quoted string, leftmost first.
  function Quoted(s: string): seq<string>
    decreases |s|
  {
    if s == "" then []
    else if s[0] != '"' then Quoted(s[1..])
    else
      var k := Unquoted(s[1..]);
      if k > 0 && k < |s| - 1 then [s[1..k + 1]] + Quoted(s[k + 2..]) else Quoted(s[1..])
  }

  predicate CleanHost(h: string) {
    h != "" && '"' !in h && '\n' !in h
  }

  predicate CleanHosts(hosts: seq<string>) {
    forall h :: h in hosts ==> CleanHost(h)
  }

  function Quote(h: string): string {
    "\"" + h + "\""
  }

  function QuoteAll(hosts: seq<string>): seq<string> {
    seq(|hosts|, i requires 0 <= i < |hosts| => Quote(hosts[i]))
  }

  function Managed(indent: string, hosts: seq<string>): string {
    indent + Opening() + (" " + Join(QuoteAll(hosts), " ") + " ") + Closing()
  }

  /** The text of the line, letter by letter. */
  lemma ManagedText(indent: string, hosts: seq<string>)
    ensures Managed(indent, hosts) ==
            indent + "linters.git-remotes.allowed-hosts = [ " + Join(QuoteAll(hosts), " ")
            + (" " + ("]; # managed by " + ("`conformist conform`" + " (--allow-host)")))
  {
    hide Join, QuoteAll, Opening;
    var quoted := Join(QuoteAll(hosts), " ");
    OpeningText();
    assert indent + Opening() + (" " + quoted + " ") + Closing() == indent + (Opening() + " ") + quoted + (" " + Closing());
  }

  lemma OpeningText()
    ensures Opening() + " " == "linters.git-remotes.allowed-hosts = [ "
  {}

  lemma {:induction false} UnquotedIs(h: string, rest: string)
    requires '"' !in h
    ensures Unquoted(h + ("\"" + rest)) == |h|
  {
    if h != "" {
      assert h[0] in h && (forall c :: c in h[1..] ==> c in h) && (h + ("\"" + rest))[1..] == h[1..] + ("\"" + rest);
      UnquotedIs(h[1..], rest);
    }
  }

  /** Reading quoted strings, leftmost first: what stands in front of a quote is skipped, a quoted string that is not empty is
      read, of an empty one the first quote is skipped, and a last quote opens nothing. */
  lemma QuotedRules(c: char, h: string, rest: string)
    requires h != "" && '"' !in h
    ensures c != '"' ==> Quoted([c] + rest) == Quoted(rest)
    ensures Quoted("\"" + h + "\"" + rest) == [h] + Quoted(rest)
    ensures Quoted("\"\"" + rest) == Quoted("\"" + rest)
    ensures Quoted("\"" + h) == [] && Quoted("\"") == [] && Quoted("") == []
  {
    assert ([c] + rest)[1..] == rest;
    UnquotedIs(h, rest);
    var s := "\"" + h + "\"" + rest;
    assert s[1..] == h + ("\"" + rest) && s[1..|h| + 1] == h && s[|h| + 2..] == rest;
    assert ("\"\"" + rest)[1..] == "\"" + rest && Unquoted("\"" + rest) == 0;
    var t := "\"" + h;
    assert t[1..] == h;
    NothingQuoted(h);
    assert "\""[1..] == "";
  }

  lemma {:induction false} NothingQuoted(h: string)
    requires '"' !in h
    ensures Unquoted(h) == |h| && Quoted(h) == []
  {
    if h != "" {
      assert h == [h[0]] + h[1..];
      NothingQuoted(h[1..]);
    }
  }

  lemma QuotedFirst(h: string, rest: string)
    requires CleanHost(h)
    ensures Quoted(Quote(h) + rest) == [h] + Quoted(rest)
  {
    var s := Quote(h) + rest;
    assert s[1..] == h + ("\"" + rest);
    UnquotedIs(h, rest);
    assert s[1..|h| + 1] == h && s[|h| + 2..] == rest;
  }

  lemma {:induction false} QuotedJoin(hosts: seq<string>)
    requires CleanHosts(hosts)
    ensures Quoted(Join(QuoteAll(hosts), " ") + " ") == hosts
  {
    hide Quoted, Quote, CleanHost;
    SpacesSkipped();
    if hosts == [] {
      assert Join(QuoteAll(hosts), " ") + " " == " ";
    } else {
      assert hosts[0] in hosts;
      var rest := hosts[1..];
      assert QuoteAll(hosts) == [Quote(hosts[0])] + QuoteAll(rest) && hosts == [hosts[0]] + rest;
      if rest == [] {
        QuotedFirst(hosts[0], " ");
      } else {
        QuotedJoin(rest);
        var tail := Join(QuoteAll(rest), " ") + " ";
        assert QuoteAll(hosts)[1..] == QuoteAll(rest);
        assert Join(QuoteAll(hosts), " ") + " " == Quote(hosts[0]) + (" " + tail);
        QuotedFirst(hosts[0], " " + tail);
        SpaceSkipped(tail);
      }
    }
  }

  lemma SpacesSkipped()
    ensures Quoted(" ") == []
  {
    assert Quoted("") == [] && " "[1..] == "";
  }

  lemma SpaceSkipped(tail: string)
    ensures Quoted(" " + tail) == Quoted(tail)
  {
    assert (" " + tail)[1..] == tail;
  }

  /** The line written for some hosts reads back as these hosts, in order. */
  lemma ManagedRoundTrip(indent: string, hosts: seq<string>)
    requires Blank(indent) && CleanHosts(hosts)
    ensures var l := Recognized(Managed(indent, hosts)); l.Some? && l.value.indent == indent && Quoted(l.value.inner) == hosts
  {
    hide Opening, Closing, Quoted, Recognized, CleanHosts;
    var inner := " " + Join(QuoteAll(hosts), " ") + " ";
    ShapeRecognized(indent, inner, "");
    assert indent + Opening() + inner + Closing() + "" == Managed(indent, hosts);
    QuotedJoin(hosts);
    SpaceSkipped(Join(QuoteAll(hosts), " ") + " ");
    assert inner == " " + (Join(QuoteAll(hosts), " ") + " ");
  }

  lemma {:induction false} QuotedClean(s: string)
    requires '\n' !in s
    ensures CleanHosts(Quoted(s))
    decreases |s|
  {
    hide CleanHost;
    if s != "" {
      assert (forall c :: c in s[1..] ==> c in s);
      if s[0] == '"' {
        var k := Unquoted(s[1..]);
        if k > 0 && k < |s| - 1 {
          QuotedOneClean(s, k);
          QuotedClean(s[k + 2..]);
        } else {
          QuotedClean(s[1..]);
        }
      } else {
        QuotedClean(s[1..]);
      }
    }
  }

  lemma QuotedOneClean(s: string, k: nat)
    requires 0 < k < |s| - 1 && k == Unquoted(s[1..]) && '\n' !in s
    ensures CleanHost(s[1..k + 1]) && '\n' !in s[k + 2..]
  {
    assert forall i :: 0 <= i < k ==> s[1..k + 1][i] == s[1..][i];
    assert forall c :: c in s[1..k + 1] ==> c in s;
    assert forall c :: c in s[k + 2..] ==> c in s;
  }

  // ---- widening ----

  // What extra adds to base, in order and once each.
  function Union(base: seq<string>, extra: seq<string>): (all: seq<string>)
    ensures base <= all
    decreases |extra|
  {
    if extra == [] then base
    else if extra[0] in base then Union(base, extra[1..])
    else Union(base + [extra[0]], extra[1..])
  }

  /** The union keeps the base in front, holds exactly the hosts of both, and repeats nothing it adds. */
  lemma {:induction false} UnionMembers(base: seq<string>, extra: seq<string>)
    ensures forall h :: h in Union(base, extra) <==> h in base || h in extra
    ensures forall i, j :: |base| <= i < |Union(base, extra)| && 0 <= j < i ==> Union(base, extra)[j] != Union(base, extra)[i]
    decreases |extra|
  {
    if extra != [] {
      assert extra == [extra[0]] + extra[1..];
      if extra[0] in base {
        UnionMembers(base, extra[1..]);
      } else {
        UnionMembers(base + [extra[0]], extra[1..]);
        UnionAdds(base, extra);
      }
    }
  }

  lemma UnionAdds(base: seq<string>, extra: seq<string>)
    requires extra != [] && extra[0] !in base
    ensures Union(base, extra)[..|base| + 1] == base + [extra[0]]
  {}

  lemma {:induction false} UnionAbsorbs(base: seq<string>, extra: seq<string>)
    requires forall h :: h in extra ==> h in base
    ensures Union(base, extra) == base
    decreases |extra|
  {
    if extra != [] {
      assert extra[0] in extra && forall h :: h in extra[1..] ==> h in extra;
      UnionAbsorbs(base, extra[1..]);
    }
  }

  method UnionOf(base: seq<string>, extra: seq<string>) returns (merged: seq<string>)
    ensures merged == Union(base, extra)
  {
    var seen := set h | h in base;
    merged := base;
    for i := 0 to |extra|
      invariant (forall h :: h in seen <==> h in merged) && Union(merged, extra[i..]) == Union(base, extra)
    {
      assert extra[i..][1..] == extra[i + 1..];
      if extra[i] !in seen {
        seen := seen + {extra[i]};
        merged := merged + [extra[i]];
      }
    }
  }

  // ---- the edit ----

  datatype Edit = Edited(text: string) | ByHand | NoPlace

  // The offset of the first line like this, or the number of lines.
  function FirstWhere(p: string -> bool, lines: seq<string>): (i: nat)
    ensures i <= |lines| && (i < |lines| ==> p(lines[i])) && forall j :: 0 <= j < i ==> !p(lines[j])
  {
    if lines == [] || p(lines[0]) then 0 else 1 + FirstWhere(p, lines[1..])
  }

  // One past the last line like this; zero when there is none.
  function LastWhere(p: string -> bool, lines: seq<string>): (n: nat)
    ensures n <= |lines| && (n > 0 ==> p(lines[n - 1])) && forall j :: n <= j < |lines| ==> !p(lines[j])
  {
    if lines == [] then 0
    else if p(lines[|lines| - 1]) then |lines|
    else LastWhere(p, lines[..|lines| - 1])
  }

  predicate IsManaged(line: string) {
    Recognized(line).Some?
  }

  function FirstManaged(lines: seq<string>): (i: nat)
    ensures i <= |lines| && (i < |lines| ==> Recognized(lines[i]).Some?) && forall j :: 0 <= j < i ==> !IsManaged(lines[j])
  {
    FirstWhere(IsManaged, lines)
  }

  predicate Contains(s: string, x: string) {
    (|x| <= |s| && s[..|x|] == x) || (s != "" && Contains(s[1..], x))
  }

  function Indent(s: string): (k: nat)
    ensures k <= |s| && (forall i :: 0 <= i < k ==> UnicodeSpace(s[i])) && (k < |s| ==> !UnicodeSpace(s[k]))
  {
    if s == "" || !UnicodeSpace(s[0]) then 0 else 1 + Indent(s[1..])
  }

  // A code line that mentions the option.
  predicate HandWritten(line: string) {
    var t := line[Indent(line)..];
    !(t != "" && t[0] == '#') && Contains(t, "allowed-hosts")
  }

  // "}" with nothing but spaces and tabs behind it.
  predicate ClosingBrace(line: string) {
    line != "" && line[0] == '}' && forall c :: c in line[1..] ==> c == ' ' || c == '\t'
  }

  function LastBrace(lines: seq<string>): (n: nat)
    ensures n <= |lines| && (n > 0 ==> ClosingBrace(lines[n - 1])) && forall j :: n <= j < |lines| ==> !ClosingBrace(lines[j])
  {
    LastWhere(ClosingBrace, lines)
  }

  function EditedLines(lines: seq<string>, hosts: seq<string>): Option<seq<string>> {
    var i := FirstManaged(lines);
    if i < |lines| then
      var l := Recognized(lines[i]).value;
      Some(lines[i := Managed(l.indent, Union(Quoted(l.inner), hosts))])
    else if exists j :: 0 <= j < |lines| && HandWritten(lines[j]) then None
    else if LastBrace(lines) == 0 then None
    else var n := LastBrace(lines) - 1; Some(lines[..n] + [Managed("  ", hosts)] + lines[n..])
  }

  function WithAllowedHosts(content: string, hosts: seq<string>): Edit {
    var lines := Split(content, '\n');
    match EditedLines(lines, hosts)
    case Some(out) => Edited(Join(out, "\n"))
    case None => if exists j :: 0 <= j < |lines| && HandWritten(lines[j]) then ByHand else NoPlace
  }

  lemma ManagedOneLine(indent: string, hosts: seq<string>)
    requires '\n' !in indent && CleanHosts(hosts)
    ensures '\n' !in Managed(indent, hosts)
  {
    hide Opening, Closing;
    OpeningShape();
    ClosingShape();
    JoinOneLine(hosts);
  }

  lemma {:induction false} JoinOneLine(hosts: seq<string>)
    requires CleanHosts(hosts)
    ensures '\n' !in Join(QuoteAll(hosts), " ")
  {
    if hosts != [] {
      assert hosts[0] in hosts && QuoteAll(hosts)[1..] == QuoteAll(hosts[1..]);
      JoinOneLine(hosts[1..]);
    }
  }

  // The line that is rewritten keeps its hosts in front and gets the missing ones.
  lemma WidenedLine(line: string, hosts: seq<string>)
    requires '\n' !in line && Recognized(line).Some? && CleanHosts(hosts)
    ensures var l := Recognized(line).value;
            var all := Union(Quoted(l.inner), hosts);
            && CleanHosts(all) && Blank(l.indent) && '\n' !in Managed(l.indent, all)
            && Recognized(Managed(l.indent, all)).Some? && Recognized(Managed(l.indent, all)).value.indent == l.indent
            && Quoted(Recognized(Managed(l.indent, all)).value.inner) == all
            && Union(all, hosts) == all
  {
    hide Managed, Quoted, CleanHost, Opening, Closing;
    var l := Recognized(line).value;
    assert forall c :: c in l.indent ==> c in line;
    assert forall c :: c in l.inner ==> c in line;
    QuotedClean(l.inner);
    UnionMembers(Quoted(l.inner), hosts);
    UnionAbsorbs(Union(Quoted(l.inner), hosts), hosts);
    ManagedOneLine(l.indent, Union(Quoted(l.inner), hosts));
    ManagedRoundTrip(l.indent, Union(Quoted(l.inner), hosts));
  }

  lemma FirstManagedIs(lines: seq<string>, i: nat)
    requires i < |lines| && IsManaged(lines[i]) && forall j :: 0 <= j < i ==> !IsManaged(lines[j])
    ensures FirstManaged(lines) == i
  {
    hide Recognized;
  }

  /** An overlay with a managed line: that line keeps every host it had, in order, and gets the missing ones behind them;
      every other line stays as it is. */
  lemma OnlyWidens(content: string, hosts: seq<string>)
    requires CleanHosts(hosts) && FirstManaged(Split(content, '\n')) < |Split(content, '\n')|
    ensures var lines := Split(content, '\n');
            var i := FirstManaged(lines);
            var had := Quoted(Recognized(lines[i]).value.inner);
            var r := WithAllowedHosts(content, hosts);
            && r.Edited? && |Split(r.text, '\n')| == |lines|
            && (forall j :: 0 <= j < |lines| && j != i ==> Split(r.text, '\n')[j] == lines[j])
            && Recognized(Split(r.text, '\n')[i]).Some?
            && var has := Quoted(Recognized(Split(r.text, '\n')[i]).value.inner);
               had <= has && forall h :: h in has <==> h in had || h in hosts
  {
    hide Recognized, Quoted, Managed, HandWritten, ClosingBrace, CleanHosts, FirstManaged, Split, Join;
    var lines := Split(content, '\n');
    var i := FirstManaged(lines);
    JoinOfSplit(content, '\n');
    assert lines[i] in lines;
    WidenedLine(lines[i], hosts);
    var l := Recognized(lines[i]).value;
    var out := lines[i := Managed(l.indent, Union(Quoted(l.inner), hosts))];
    SplitOfJoin(out, '\n');
    UnionMembers(Quoted(l.inner), hosts);
  }

  /** An overlay without one gets a managed line with exactly the given hosts in front of its last closing brace, and
      loses nothing. */
  lemma OnlyInserts(content: string, hosts: seq<string>)
    requires CleanHosts(hosts) && FirstManaged(Split(content, '\n')) == |Split(content, '\n')|
    requires WithAllowedHosts(content, hosts).Edited?
    ensures var lines, out := Split(content, '\n'), Split(WithAllowedHosts(content, hosts).text, '\n');
            exists n, line :: LastClosing(lines, n) && out == lines[..n] + [line] + lines[n..] && Lists(line, hosts)
                              && line == Managed("  ", hosts)
  {
    hide Recognized, Quoted, HandWritten, ClosingBrace, CleanHosts, FirstManaged, Split, Join, Opening, Closing, Managed;
    var lines := Split(content, '\n');
    JoinOfSplit(content, '\n');
    var n := LastBrace(lines) - 1;
    TwoSpaces();
    ManagedOneLine("  ", hosts);
    ManagedRoundTrip("  ", hosts);
    var out := lines[..n] + [Managed("  ", hosts)] + lines[n..];
    SplitOfJoin(out, '\n');
    assert Lists(Managed("  ", hosts), hosts);
  }

  // The last line that closes a block in the first column.
  predicate LastClosing(lines: seq<string>, n: int) {
    0 <= n < |lines| && ClosingBrace(lines[n]) && forall j :: n < j < |lines| ==> !ClosingBrace(lines[j])
  }

  predicate Lists(line: string, hosts: seq<string>) {
    Recognized(line).Some? && Quoted(Recognized(line).value.inner) == hosts
  }

  lemma TwoSpaces()
    ensures Blank("  ") && '\n' !in "  "
  {}

  /** Persisting the same hosts again changes nothing. */
  lemma EditIdempotent(content: string, hosts: seq<string>)
    requires CleanHosts(hosts) && WithAllowedHosts(content, hosts).Edited?
    ensures WithAllowedHosts(WithAllowedHosts(content, hosts).text, hosts) == WithAllowedHosts(content, hosts)
  {
    hide Recognized, Quoted, HandWritten, ClosingBrace, CleanHosts, FirstManaged, Split, Join, Opening, Closing, Managed, Union;
    var lines := Split(content, '\n');
    JoinOfSplit(content, '\n');
    var i := FirstManaged(lines);
    if i < |lines| {
      assert lines[i] in lines;
      WidenedLine(lines[i], hosts);
      var l := Recognized(lines[i]).value;
      var line := Managed(l.indent, Union(Quoted(l.inner), hosts));
      Settled(lines[i := line], i, l.indent, Union(Quoted(l.inner), hosts), hosts);
    } else {
      var n := LastBrace(lines) - 1;
      TwoSpaces();
      ManagedOneLine("  ", hosts);
      ManagedRoundTrip("  ", hosts);
      UnionAbsorbs(hosts, hosts);
      Settled(lines[..n] + [Managed("  ", hosts)] + lines[n..], n, "  ", hosts, hosts);
    }
  }

  // Lines whose first managed line already holds the hosts are edited to themselves.
  lemma Settled(out: seq<string>, i: nat, indent: string, all: seq<string>, hosts: seq<string>)
    requires i < |out| && out[i] == Managed(indent, all) && Union(all, hosts) == all
    requires forall p :: p in out ==> '\n' !in p
    requires forall j :: 0 <= j < i ==> !IsManaged(out[j])
    requires Recognized(out[i]).Some? && Recognized(out[i]).value.indent == indent && Quoted(Recognized(out[i]).value.inner) == all
    ensures WithAllowedHosts(Join(out, "\n"), hosts) == Edited(Join(out, "\n"))
  {
    hide Recognized, Quoted, HandWritten, ClosingBrace, Split, Join, Managed, Union, FirstManaged;
    SplitOfJoin(out, '\n');
    FirstManagedIs(out, i);
    assert out[i := out[i]] == out;
  }

  // ---- which overlays are refused ----

  predicate FoundAt(s: string, x: string, k: nat) {
    k + |x| <= |s| && s[k..k + |x|] == x
  }

  lemma {:induction false} ContainsIff(s: string, x: string)
    ensures Contains(s, x) <==> exists k :: FoundAt(s, x, k)
  {
    assert |x| <= |s| && s[..|x|] == x <==> FoundAt(s, x, 0);
    if s != "" {
      ContainsIff(s[1..], x);
      if k: nat :| FoundAt(s[1..], x, k) { assert s[1..][k..k + |x|] == s[k + 1..k + 1 + |x|] && FoundAt(s, x, k + 1); }
      if k: nat :| FoundAt(s, x, k) && k > 0 {
        assert s[1..][k - 1..k - 1 + |x|] == s[k..k + |x|] && FoundAt(s[1..], x, k - 1);
      }
    } else if k: nat :| FoundAt(s, x, k) {
      assert k == 0;
    }
  }

  lemma FoundBehind(s: string, x: string, n: nat, k: nat)
    requires n <= |s|
    ensures FoundAt(s[n..], x, k) <==> FoundAt(s, x, n + k)
  {
    if n + k + |x| <= |s| { assert s[n..][k..k + |x|] == s[n + k..n + k + |x|]; }
  }

  // Behind its white space the line does not begin with '#', and it mentions the option at k.
  predicate MentionsAt(line: string, n: nat, k: nat) {
    && n <= k && FoundAt(line, "allowed-hosts", k) && n < |line|
    && (forall i :: 0 <= i < n ==> UnicodeSpace(line[i])) && !UnicodeSpace(line[n]) && line[n] != '#'
  }

  lemma HandWrittenIff(line: string)
    ensures HandWritten(line) <==> exists n, k :: MentionsAt(line, n, k)
  {
    hide UnicodeSpace, Contains;
    var n := Indent(line);
    var t := line[n..];
    ContainsIff(t, "allowed-hosts");
    if HandWritten(line) {
      var k: nat :| FoundAt(t, "allowed-hosts", k);
      FoundBehind(line, "allowed-hosts", n, k);
      assert MentionsAt(line, n, n + k);
    }
    if m: nat, k: nat :| MentionsAt(line, m, k) {
      assert m == n;
      FoundBehind(line, "allowed-hosts", n, k - n);
    }
  }

  ghost predicate SomeManaged(lines: seq<string>) {
    exists j, l, trailing :: 0 <= j < |lines| && Shaped(lines[j], l, trailing)
  }

  ghost predicate SomeMention(lines: seq<string>) {
    exists j, n, k :: 0 <= j < |lines| && MentionsAt(lines[j], n, k)
  }

  // A line that is a brace in the first column with nothing but spaces and tabs behind it.
  predicate SomeClosing(lines: seq<string>) {
    exists j :: 0 <= j < |lines| && lines[j] != "" && lines[j][0] == '}' && forall c :: c in lines[j][1..] ==> c in " \t"
  }

  /** What is refused: an overlay that mentions the option in a line of code, when no line is the managed one; and else one
      without a closing brace in the first column. Every other overlay is edited. */
  lemma RefusalReasons(content: string, hosts: seq<string>)
    ensures var lines, r := Split(content, '\n'), WithAllowedHosts(content, hosts);
            && (r == ByHand <==> !SomeManaged(lines) && SomeMention(lines))
            && (r == NoPlace <==> !SomeManaged(lines) && !SomeMention(lines) && !SomeClosing(lines))
  {
    hide Recognized, Quoted, HandWritten, ClosingBrace, Split, Join, Managed, Union, FirstManaged, LastBrace, IsManaged,
         SomeManaged, SomeMention, SomeClosing;
    var lines := Split(content, '\n');
    ManagedFound(lines);
    MentionFound(lines);
    ClosingFound(lines);
  }

  lemma ManagedFound(lines: seq<string>)
    ensures FirstManaged(lines) < |lines| <==> SomeManaged(lines)
  {
    hide IsManaged, Shaped, FirstManaged;
    FirstManagedFits(lines);
    forall j | 0 <= j < |lines|
      ensures IsManaged(lines[j]) <==> exists l, trailing :: Shaped(lines[j], l, trailing)
    {
      ManagedIff(lines[j]);
    }
  }

  lemma FirstManagedFits(lines: seq<string>)
    ensures FirstManaged(lines) <= |lines| && (FirstManaged(lines) < |lines| ==> IsManaged(lines[FirstManaged(lines)]))
    ensures forall j :: 0 <= j < FirstManaged(lines) ==> !IsManaged(lines[j])
  {}

  lemma MentionFound(lines: seq<string>)
    ensures (exists j :: 0 <= j < |lines| && HandWritten(lines[j])) <==> SomeMention(lines)
  {
    hide HandWritten, MentionsAt;
    forall j | 0 <= j < |lines|
      ensures HandWritten(lines[j]) <==> exists n, k :: MentionsAt(lines[j], n, k)
    {
      HandWrittenIff(lines[j]);
    }
  }

  lemma ClosingFound(lines: seq<string>)
    ensures LastBrace(lines) > 0 <==> SomeClosing(lines)
  {
    hide ClosingBrace;
    forall j | 0 <= j < |lines|
      ensures ClosingBrace(lines[j]) <==> lines[j] != "" && lines[j][0] == '}' && forall c :: c in lines[j][1..] ==> c in " \t"
    {
      ClosingBraceIff(lines[j]);
    }
  }

  lemma ClosingBraceIff(line: string)
    ensures ClosingBrace(line) <==> line != "" && line[0] == '}' && forall c :: c in line[1..] ==> c in " \t"
  {}

  lemma ManagedIff(line: string)
    ensures IsManaged(line) <==> exists l, trailing :: Shaped(line, l, trailing)
  {
    hide Recognized, Shaped;
    if Recognized(line).Some? { RecognizedIff(line, Recognized(line).value); }
    if l, trailing :| Shaped(line, l, trailing) { RecognizedIff(line, l); }
  }

  // ---- the edit as the loops that make it ----

  method EditHosts(content: string, hosts: seq<string>) returns (text: string, r: Edit)
    ensures r == WithAllowedHosts(content, hosts)
    ensures text == if r.Edited? then r.text else content
  {
    hide Recognized, Quoted, HandWritten, ClosingBrace, Split, Join, Managed, Union;
    var lines := Split(content, '\n');
    for i := 0 to |lines|
      invariant forall j :: 0 <= j < i ==> !IsManaged(lines[j])
    {
      var m := Recognized(lines[i]);
      if m.Some? {
        FirstManagedIs(lines, i);
        var merged := UnionOf(Quoted(m.value.inner), hosts);
        lines := lines[i := Managed(m.value.indent, merged)];
        return Join(lines, "\n"), Edited(Join(lines, "\n"));
      }
    }
    for i := 0 to |lines|
      invariant forall j :: 0 <= j < i ==> !HandWritten(lines[j])
    {
      if HandWritten(lines[i]) { return content, ByHand; }
    }
    var n := |lines|;
    while n > 0
      invariant 0 <= n <= |lines| && forall j :: n <= j < |lines| ==> !ClosingBrace(lines[j])
    {
      if ClosingBrace(lines[n - 1]) {
        LastBraceIs(lines, n);
        var inserted := lines[..n - 1] + [Managed("  ", hosts)] + lines[n - 1..];
        return Join(inserted, "\n"), Edited(Join(inserted, "\n"));
      }
      n := n - 1;
    }
    LastBraceIs(lines, 0);
    text, r := content, NoPlace;
  }

  lemma LastBraceIs(lines: seq<string>, n: nat)
    requires n <= |lines| && (n > 0 ==> ClosingBrace(lines[n - 1])) && forall j :: n <= j < |lines| ==> !ClosingBrace(lines[j])
    ensures LastBrace(lines) == n
  {
    hide ClosingBrace;
  }
}
