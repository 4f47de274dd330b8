/** The byte stream a configuration's identity hashes, and why it determines the configuration. */
module Identity {
  import opened Decimal
  import opened Optional
  import opened Order

  // ---- framing ----

  datatype Item = Field(key: string, value: string) | List(key: string, values: seq<string>)

  function WriteValue(v: string): string {
    Digits(|v|) + ":" + v + "\n"
  }

  function WriteValues(vs: seq<string>): string {
    if vs == [] then "" else WriteValue(vs[0]) + WriteValues(vs[1..])
  }

  function Write(item: Item): string {
    match item
    case Field(key, value) => key + "=" + WriteValue(value)
    case List(key, values) => key + "[" + Digits(|values|) + "]\n" + WriteValues(values)
  }

  function Stream(items: seq<Item>): string {
    if items == [] then "" else Write(items[0]) + Stream(items[1..])
  }

  // ---- an independent reader ----

  function Until(s: string, stops: set<char>): (k: nat)
    ensures k <= |s| && (forall i :: 0 <= i < k ==> s[i] !in stops) && (k < |s| ==> s[k] in stops)
  {
    if s == [] || s[0] in stops then 0 else 1 + Until(s[1..], stops)
  }

  // A decimal number followed by the stop character; the rest starts after it.
  function ReadNumber(s: string, stop: char): Option<(nat, string)> {
    var k := Until(s, {stop});
    if k < |s| && forall c :: c in s[..k] ==> IsDigit(c) then Some((Value(s[..k]), s[k + 1..])) else None
  }

  function ReadValue(s: string): Option<(string, string)> {
    match ReadNumber(s, ':')
    case None => None
    case Some((n, rest)) =>
      if n < |rest| && rest[n] == '\n' then Some((rest[..n], rest[n + 1..])) else None
  }

  function ReadValues(s: string, n: nat): Option<(seq<string>, string)>
    decreases n
  {
    if n == 0 then Some(([], s))
    else match ReadValue(s)
         case None => None
         case Some((v, rest)) =>
           match ReadValues(rest, n - 1)
           case None => None
           case Some((vs, tail)) => Some(([v] + vs, tail))
  }

  function Read(s: string): Option<(Item, string)> {
    var k := Until(s, {'=', '['});
    if k == |s| then None
    else if s[k] == '=' then
      match ReadValue(s[k + 1..])
      case None => None
      case Some((v, rest)) => Some((Field(s[..k], v), rest))
    else
      match ReadNumber(s[k + 1..], ']')
      case None => None
      case Some((n, rest)) =>
        if rest == [] || rest[0] != '\n' then None
        else match ReadValues(rest[1..], n)
             case None => None
             case Some((vs, tail)) => Some((List(s[..k], vs), tail))
  }

  // ---- reading back what was written ----

  predicate KeyOk(key: string) {
    forall c :: c in key ==> c !in {'=', '['}
  }

  lemma {:induction false} UntilAt(s: string, stops: set<char>, k: nat)
    requires k < |s| && s[k] in stops && forall i :: 0 <= i < k ==> s[i] !in stops
    ensures Until(s, stops) == k
  {
    if k > 0 { UntilAt(s[1..], stops, k - 1); }
  }

  lemma ReadWriteNumber(n: nat, stop: char, rest: string)
    requires !IsDigit(stop)
    ensures ReadNumber(Digits(n) + [stop] + rest, stop) == Some((n, rest))
  {
    var d := Digits(n);
    var s := d + [stop] + rest;
    assert forall i :: 0 <= i < |d| ==> s[i] == d[i] && d[i] in d;
    UntilAt(s, {stop}, |d|);
    assert s[..|d|] == d && s[|d| + 1..] == rest;
    ValueOfDigits(n);
  }

  lemma ReadWriteValue(v: string, rest: string)
    ensures ReadValue(WriteValue(v) + rest) == Some((v, rest))
  {
    var tail := v + "\n" + rest;
    assert WriteValue(v) + rest == Digits(|v|) + [':'] + tail;
    ReadWriteNumber(|v|, ':', tail);
    assert tail[..|v|] == v && tail[|v| + 1..] == rest;
  }

  lemma {:induction false} ReadWriteValues(vs: seq<string>, rest: string)
    ensures ReadValues(WriteValues(vs) + rest, |vs|) == Some((vs, rest))
  {
    hide ReadValue, WriteValue;
    if vs == [] {
      assert WriteValues(vs) + rest == rest;
    } else {
      var tail := WriteValues(vs[1..]) + rest;
      assert WriteValues(vs) + rest == WriteValue(vs[0]) + tail;
      ReadWriteValue(vs[0], tail);
      ReadWriteValues(vs[1..], rest);
      assert [vs[0]] + vs[1..] == vs;
    }
  }

  lemma KeyEnds(key: string, stop: char, rest: string)
    requires KeyOk(key) && stop in {'=', '['}
    ensures var s := key + [stop] + rest;
            Until(s, {'=', '['}) == |key| && s[..|key|] == key && s[|key|] == stop && s[|key| + 1..] == rest
  {
    var s := key + [stop] + rest;
    assert forall i :: 0 <= i < |key| ==> s[i] == key[i] && key[i] in key;
    UntilAt(s, {'=', '['}, |key|);
  }

  lemma ReadWrite(item: Item, rest: string)
    requires KeyOk(item.key)
    ensures Read(Write(item) + rest) == Some((item, rest))
  {
    hide ReadNumber, ReadValue, Until, KeyOk;
    match item
    case Field(key, value) =>
      var tail := WriteValue(value) + rest;
      assert Write(item) + rest == key + ['='] + tail;
      KeyEnds(key, '=', tail);
      ReadWriteValue(value, rest);
    case List(key, values) =>
      var inner := "\n" + (WriteValues(values) + rest);
      var tail := Digits(|values|) + [']'] + inner;
      assert Write(item) + rest == key + ['['] + tail;
      KeyEnds(key, '[', tail);
      ReadWriteNumber(|values|, ']', inner);
      assert inner[1..] == WriteValues(values) + rest;
      ReadWriteValues(values, rest);
  }

  predicate KeysOk(items: seq<Item>) {
    forall i :: 0 <= i < |items| ==> KeyOk(items[i].key)
  }

  lemma WriteNonEmpty(item: Item)
    ensures Write(item) != []
  {}

  /** The framing is unambiguous: equal streams come from equal item sequences, whatever the values contain. */
  lemma {:induction false} StreamInjective(a: seq<Item>, b: seq<Item>)
    requires KeysOk(a) && KeysOk(b) && Stream(a) == Stream(b)
    ensures a == b
  {
    hide Read, Write, KeyOk;
    if a != [] { WriteNonEmpty(a[0]); }
    if b != [] { WriteNonEmpty(b[0]); }
    if a != [] && b != [] {
      ReadWrite(a[0], Stream(a[1..]));
      ReadWrite(b[0], Stream(b[1..]));
      StreamInjective(a[1..], b[1..]);
      assert a == [a[0]] + a[1..] && b == [b[0]] + b[1..];
    }
  }

  // ---- the configuration ----

  datatype Formatter = Formatter(
    command: string, options: seq<string>, includes: seq<string>, excludes: seq<string>, priority: int,
    checkCommand: string, checkOptions: seq<string>, workingDir: string)

  datatype Linter = Linter(
    command: string, options: seq<string>, includes: seq<string>, excludes: seq<string>, priority: int,
    repairCommand: string, repairOptions: seq<string>, workingDir: string)

  datatype Config = Config(
    walk: string, excludes: seq<string>, skipGenerated: bool,
    formatters: map<string, Formatter>, linters: map<string, Linter>)

  function FormatterItems(name: string, f: Formatter): (items: seq<Item>)
    ensures |items| == 9 && items[0].key == "formatter"
  {
    [Field("formatter", name), Field("command", f.command), List("options", f.options),
     List("includes", f.includes), List("excludes", f.excludes), Field("priority", Itoa(f.priority)),
     Field("check-command", f.checkCommand), List("check-options", f.checkOptions), Field("working-dir", f.workingDir)]
  }

  function LinterItems(name: string, l: Linter): (items: seq<Item>)
    ensures |items| == 9 && items[0].key == "linter"
  {
    [Field("linter", name), Field("command", l.command), List("options", l.options),
     List("includes", l.includes), List("excludes", l.excludes), Field("priority", Itoa(l.priority)),
     Field("repair-command", l.repairCommand), List("repair-options", l.repairOptions), Field("working-dir", l.workingDir)]
  }

  function FormattersItems(names: seq<string>, m: map<string, Formatter>): seq<Item>
    requires forall n :: n in names ==> n in m
  {
    if names == [] then [] else FormatterItems(names[0], m[names[0]]) + FormattersItems(names[1..], m)
  }

  function LintersItems(names: seq<string>, m: map<string, Linter>): seq<Item>
    requires forall n :: n in names ==> n in m
  {
    if names == [] then [] else LinterItems(names[0], m[names[0]]) + LintersItems(names[1..], m)
  }

  function HeaderItems(c: Config): seq<Item> {
    [Field("walk", c.walk), List("excludes", c.excludes)]
    + if c.skipGenerated then [Field("skip-generated", "true")] else []
  }

  // The stream written for a configuration; the listings are the sorted keys of its two tables.
  function IdentityStream(c: Config, fs: seq<string>, ls: seq<string>): string
    requires IsSortedListing(fs, c.formatters.Keys) && IsSortedListing(ls, c.linters.Keys)
  {
    ListingMembers(fs, c.formatters.Keys);
    ListingMembers(ls, c.linters.Keys);
    Stream(HeaderItems(c) + FormattersItems(fs, c.formatters) + LintersItems(ls, c.linters))
  }

  // ---- writing it ----

  method WriteFormatters(h: string, c: Config, fs: seq<string>) returns (out: string)
    requires forall n :: n in fs ==> n in c.formatters
    ensures out == h + Stream(FormattersItems(fs, c.formatters))
  {
    hide Write, FormatterItems;
    out := h;
    for i := 0 to |fs|
      invariant out + Stream(FormattersItems(fs[i..], c.formatters)) == h + Stream(FormattersItems(fs, c.formatters))
    {
      var items := FormatterItems(fs[i], c.formatters[fs[i]]);
      ghost var rest := FormattersItems(fs[i + 1..], c.formatters);
      StreamAppend(items, rest);
      assert fs[i..][1..] == fs[i + 1..];
      assert out + (Stream(items) + Stream(rest)) == (out + Stream(items)) + Stream(rest);
      out := out + Stream(items);
    }
    assert out + Stream(FormattersItems(fs[|fs|..], c.formatters)) == out;
  }

  method WriteLinters(h: string, c: Config, ls: seq<string>) returns (out: string)
    requires forall n :: n in ls ==> n in c.linters
    ensures out == h + Stream(LintersItems(ls, c.linters))
  {
    hide Write, LinterItems;
    out := h;
    for i := 0 to |ls|
      invariant out + Stream(LintersItems(ls[i..], c.linters)) == h + Stream(LintersItems(ls, c.linters))
    {
      var items := LinterItems(ls[i], c.linters[ls[i]]);
      ghost var rest := LintersItems(ls[i + 1..], c.linters);
      StreamAppend(items, rest);
      assert ls[i..][1..] == ls[i + 1..];
      assert out + (Stream(items) + Stream(rest)) == (out + Stream(items)) + Stream(rest);
      out := out + Stream(items);
    }
    assert out + Stream(LintersItems(ls[|ls|..], c.linters)) == out;
  }

  method WriteIdentity(c: Config) returns (h: string)
    ensures exists fs, ls :: IsSortedListing(fs, c.formatters.Keys) && IsSortedListing(ls, c.linters.Keys) &&
                             h == IdentityStream(c, fs, ls)
  {
    hide Write, HeaderItems, IsSortedListing, FormattersItems, LintersItems, Stream;
    h := Stream(HeaderItems(c));
    var fs := SortedKeys(c.formatters.Keys);
    ListingMembers(fs, c.formatters.Keys);
    h := WriteFormatters(h, c, fs);
    var ls := SortedKeys(c.linters.Keys);
    ListingMembers(ls, c.linters.Keys);
    h := WriteLinters(h, c, ls);
    StreamAppend(HeaderItems(c), FormattersItems(fs, c.formatters));
    StreamAppend(HeaderItems(c) + FormattersItems(fs, c.formatters), LintersItems(ls, c.linters));
    assert h == IdentityStream(c, fs, ls);
  }

  lemma {:induction false} StreamAppend(a: seq<Item>, b: seq<Item>)
    ensures Stream(a + b) == Stream(a) + Stream(b)
  {
    hide Write;
    if a == [] {
      assert a + b == b;
    } else {
      assert (a + b)[1..] == a[1..] + b;
      StreamAppend(a[1..], b);
    }
  }

  // ---- what the stream determines ----

  lemma SharedKeysOk()
    ensures KeyOk("command") && KeyOk("options") && KeyOk("includes") && KeyOk("excludes") && KeyOk("priority")
  {}

  lemma OwnKeysOk()
    ensures KeyOk("formatter") && KeyOk("linter") && KeyOk("working-dir") && KeyOk("walk")
  {}

  lemma LongKeysOk()
    ensures KeyOk("check-command") && KeyOk("check-options")
  {}

  lemma LongestKeysOk()
    ensures KeyOk("repair-command") && KeyOk("repair-options") && KeyOk("skip-generated")
  {}

  lemma FormatterItemsKeysOk(name: string, f: Formatter)
    ensures KeysOk(FormatterItems(name, f))
  {
    hide KeyOk;
    SharedKeysOk();
    OwnKeysOk();
    LongKeysOk();
  }

  lemma LinterItemsKeysOk(name: string, l: Linter)
    ensures KeysOk(LinterItems(name, l))
  {
    hide KeyOk;
    SharedKeysOk();
    OwnKeysOk();
    LongestKeysOk();
  }

  lemma HeaderKeysOk(c: Config)
    ensures KeysOk(HeaderItems(c))
  {
    hide KeyOk;
    SharedKeysOk();
    OwnKeysOk();
    LongestKeysOk();
  }

  lemma {:induction false} FormattersKeysOk(names: seq<string>, m: map<string, Formatter>)
    requires forall n :: n in names ==> n in m
    ensures KeysOk(FormattersItems(names, m))
  {
    hide FormatterItems, KeyOk;
    if names != [] {
      FormatterItemsKeysOk(names[0], m[names[0]]);
      FormattersKeysOk(names[1..], m);
    }
  }

  lemma {:induction false} LintersKeysOk(names: seq<string>, m: map<string, Linter>)
    requires forall n :: n in names ==> n in m
    ensures KeysOk(LintersItems(names, m))
  {
    hide LinterItems, KeyOk;
    if names != [] {
      LinterItemsKeysOk(names[0], m[names[0]]);
      LintersKeysOk(names[1..], m);
    }
  }

  // What follows the formatters is not another formatter.
  predicate NoFormatterFirst(items: seq<Item>) {
    items == [] || items[0].key != "formatter"
  }

  lemma FormatterItemsInjective(n1: string, f1: Formatter, n2: string, f2: Formatter)
    requires FormatterItems(n1, f1) == FormatterItems(n2, f2)
    ensures n1 == n2 && f1 == f2
  {
    var a, b := FormatterItems(n1, f1), FormatterItems(n2, f2);
    assert a[0] == b[0] && a[1] == b[1] && a[2] == b[2] && a[3] == b[3] && a[4] == b[4];
    assert a[5] == b[5] && a[6] == b[6] && a[7] == b[7] && a[8] == b[8];
    ItoaInjective(f1.priority, f2.priority);
  }

  lemma LinterItemsInjective(n1: string, l1: Linter, n2: string, l2: Linter)
    requires LinterItems(n1, l1) == LinterItems(n2, l2)
    ensures n1 == n2 && l1 == l2
  {
    var a, b := LinterItems(n1, l1), LinterItems(n2, l2);
    assert a[0] == b[0] && a[1] == b[1] && a[2] == b[2] && a[3] == b[3] && a[4] == b[4];
    assert a[5] == b[5] && a[6] == b[6] && a[7] == b[7] && a[8] == b[8];
    ItoaInjective(l1.priority, l2.priority);
  }

  lemma SplitEqual(a: seq<Item>, x: seq<Item>, b: seq<Item>, y: seq<Item>)
    requires a + x == b + y && |a| == |b|
    ensures a == b && x == y
  {
    assert a == (a + x)[..|a|] && b == (b + y)[..|b|];
    assert x == (a + x)[|a|..] && y == (b + y)[|b|..];
  }

  lemma FormattersFirst(names: seq<string>, m: map<string, Formatter>, rest: seq<Item>)
    requires forall n :: n in names ==> n in m
    ensures var items := FormattersItems(names, m) + rest;
            if names == [] then items == rest else items != [] && items[0].key == "formatter"
  {}

  lemma {:induction false} FormattersDetermined(
    n1: seq<string>, m1: map<string, Formatter>, r1: seq<Item>, n2: seq<string>, m2: map<string, Formatter>, r2: seq<Item>)
    requires (forall n :: n in n1 ==> n in m1) && (forall n :: n in n2 ==> n in m2)
    requires NoFormatterFirst(r1) && NoFormatterFirst(r2)
    requires FormattersItems(n1, m1) + r1 == FormattersItems(n2, m2) + r2
    ensures n1 == n2 && r1 == r2 && forall n :: n in n1 ==> m1[n] == m2[n]
  {
    hide FormatterItems;
    FormattersFirst(n1, m1, r1);
    FormattersFirst(n2, m2, r2);
    if n1 != [] && n2 != [] {
      var a, b := FormatterItems(n1[0], m1[n1[0]]), FormatterItems(n2[0], m2[n2[0]]);
      var x, y := FormattersItems(n1[1..], m1) + r1, FormattersItems(n2[1..], m2) + r2;
      assert a + x == FormattersItems(n1, m1) + r1 && b + y == FormattersItems(n2, m2) + r2;
      SplitEqual(a, x, b, y);
      FormatterItemsInjective(n1[0], m1[n1[0]], n2[0], m2[n2[0]]);
      FormattersDetermined(n1[1..], m1, r1, n2[1..], m2, r2);
      assert n1 == [n1[0]] + n1[1..] && n2 == [n2[0]] + n2[1..];
    }
  }

  lemma {:induction false} LintersDetermined(
    n1: seq<string>, m1: map<string, Linter>, n2: seq<string>, m2: map<string, Linter>)
    requires (forall n :: n in n1 ==> n in m1) && (forall n :: n in n2 ==> n in m2)
    requires LintersItems(n1, m1) == LintersItems(n2, m2)
    ensures n1 == n2 && forall n :: n in n1 ==> m1[n] == m2[n]
  {
    hide LinterItems;
    if n1 != [] && n2 != [] {
      var a, b := LinterItems(n1[0], m1[n1[0]]), LinterItems(n2[0], m2[n2[0]]);
      SplitEqual(a, LintersItems(n1[1..], m1), b, LintersItems(n2[1..], m2));
      LinterItemsInjective(n1[0], m1[n1[0]], n2[0], m2[n2[0]]);
      LintersDetermined(n1[1..], m1, n2[1..], m2);
      assert n1 == [n1[0]] + n1[1..] && n2 == [n2[0]] + n2[1..];
    }
  }

  lemma HeaderDetermined(c1: Config, r1: seq<Item>, c2: Config, r2: seq<Item>)
    requires HeaderItems(c1) + r1 == HeaderItems(c2) + r2
    requires (r1 == [] || r1[0].key in {"formatter", "linter"}) && (r2 == [] || r2[0].key in {"formatter", "linter"})
    ensures c1.walk == c2.walk && c1.excludes == c2.excludes && c1.skipGenerated == c2.skipGenerated && r1 == r2
  {
    var a, b := HeaderItems(c1) + r1, HeaderItems(c2) + r2;
    assert a[0] == b[0] && a[1] == b[1];
    assert |a| > 2 ==> (a[2].key == "skip-generated" <==> c1.skipGenerated);
    assert |b| > 2 ==> (b[2].key == "skip-generated" <==> c2.skipGenerated);
    SplitEqual(HeaderItems(c1), r1, HeaderItems(c2), r2);
  }

  lemma SameKeys(n: seq<string>, k1: set<string>, k2: set<string>)
    requires IsSortedListing(n, k1) && IsSortedListing(n, k2)
    ensures k1 == k2
  {
    ListingMembers(n, k1);
    ListingMembers(n, k2);
  }

  /** Two configurations with the same stream agree on every hashed field. */
  lemma IdentityInjective(c1: Config, f1: seq<string>, l1: seq<string>, c2: Config, f2: seq<string>, l2: seq<string>)
    requires IsSortedListing(f1, c1.formatters.Keys) && IsSortedListing(l1, c1.linters.Keys)
    requires IsSortedListing(f2, c2.formatters.Keys) && IsSortedListing(l2, c2.linters.Keys)
    requires IdentityStream(c1, f1, l1) == IdentityStream(c2, f2, l2)
    ensures c1 == c2
  {
    hide Stream, HeaderItems, FormattersItems, LintersItems, IsSortedListing, KeyOk, NoFormatterFirst;
    ListingMembers(f1, c1.formatters.Keys);
    ListingMembers(l1, c1.linters.Keys);
    ListingMembers(f2, c2.formatters.Keys);
    ListingMembers(l2, c2.linters.Keys);
    ItemsKeysOk(c1, f1, l1);
    ItemsKeysOk(c2, f2, l2);
    var ta, tb := LintersItems(l1, c1.linters), LintersItems(l2, c2.linters);
    var fa, fb := FormattersItems(f1, c1.formatters), FormattersItems(f2, c2.formatters);
    StreamInjective(HeaderItems(c1) + fa + ta, HeaderItems(c2) + fb + tb);
    assert HeaderItems(c1) + fa + ta == HeaderItems(c1) + (fa + ta);
    assert HeaderItems(c2) + fb + tb == HeaderItems(c2) + (fb + tb);
    TailShape(f1, c1.formatters, l1, c1.linters);
    TailShape(f2, c2.formatters, l2, c2.linters);
    HeaderDetermined(c1, fa + ta, c2, fb + tb);
    FormattersDetermined(f1, c1.formatters, ta, f2, c2.formatters, tb);
    LintersDetermined(l1, c1.linters, l2, c2.linters);
    SameKeys(f1, c1.formatters.Keys, c2.formatters.Keys);
    SameKeys(l1, c1.linters.Keys, c2.linters.Keys);
    assert c1.formatters == c2.formatters && c1.linters == c2.linters;
  }

  lemma TailShape(fs: seq<string>, fm: map<string, Formatter>, ls: seq<string>, lm: map<string, Linter>)
    requires (forall n :: n in fs ==> n in fm) && (forall n :: n in ls ==> n in lm)
    ensures var t := LintersItems(ls, lm); NoFormatterFirst(t) && (t == [] || t[0].key in {"formatter", "linter"})
    ensures var t := FormattersItems(fs, fm) + LintersItems(ls, lm); t == [] || t[0].key in {"formatter", "linter"}
  {}

  lemma ItemsKeysOk(c: Config, fs: seq<string>, ls: seq<string>)
    requires (forall n :: n in fs ==> n in c.formatters) && (forall n :: n in ls ==> n in c.linters)
    ensures KeysOk(HeaderItems(c) + FormattersItems(fs, c.formatters) + LintersItems(ls, c.linters))
  {
    hide KeyOk, HeaderItems, FormattersItems, LintersItems;
    HeaderKeysOk(c);
    FormattersKeysOk(fs, c.formatters);
    LintersKeysOk(ls, c.linters);
  }

  /** The stream does not depend on the order in which the tables yield their keys. */
  lemma IdentityDeterministic(c: Config, f1: seq<string>, l1: seq<string>, f2: seq<string>, l2: seq<string>)
    requires IsSortedListing(f1, c.formatters.Keys) && IsSortedListing(l1, c.linters.Keys)
    requires IsSortedListing(f2, c.formatters.Keys) && IsSortedListing(l2, c.linters.Keys)
    ensures IdentityStream(c, f1, l1) == IdentityStream(c, f2, l2)
  {
    ListingUnique(f1, f2, c.formatters.Keys);
    ListingUnique(l1, l2, c.linters.Keys);
  }
}
