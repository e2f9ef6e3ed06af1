/**
 One GPU's configuration on its way from the device manager to the node: syncConfig prints it,
 the config client splits it into two files, the launcher reads one of them back.
 */
module Wire {
  import opened Options
  import opened Text
  import opened GpuPool

  /** Prints a float64: %f, whose digits nothing here depends on. */
  type FloatText = real -> string

  /** A printed float has no character that the wire format gives a meaning to. */
  ghost predicate PlainFloats(f: FloatText) {
    forall x: real, c: char :: c in f(x) ==> c != ':' && c != ',' && c != '\n'
  }

  /** A request's entry in the config section, without the comma that ends it. */
  function ConfigText(e: PodRequest, f: FloatText): string {
    e.key + " " + f(e.request) + " " + f(e.limit) + " " + Decimal(e.memory)
  }

  function ConfigEntry(e: PodRequest, f: FloatText): string {
    ConfigText(e, f) + ","
  }

  function PortName(e: PodRequest): string {
    e.key + " " + Decimal(e.port)
  }

  function ConfigEntries(pl: seq<PodRequest>, f: FloatText): string {
    if pl == [] then "" else ConfigEntry(pl[0], f) + ConfigEntries(pl[1..], f)
  }

  function PortEntries(pl: seq<PodRequest>): string {
    if pl == [] then "" else PortName(pl[0]) + "," + PortEntries(pl[1..])
  }

  /** The line that syncConfig sends, without its line end. */
  function Message(c: Config, f: FloatText): string {
    c.uuid + ":" + ConfigEntries(c.podList, f) + ":" + PortEntries(c.podList)
  }

  lemma Regroup(a: string, b: string, c: string)
    ensures (a + b) + c == a + (b + c)
  {
  }

  /** The first buffer loop of syncConfig. */
  method WriteConfigs(start: string, pl: seq<PodRequest>, f: FloatText) returns (buf: string)
    ensures buf == start + ConfigEntries(pl, f)
  {
    buf := start;
    for k := 0 to |pl|
      invariant buf + ConfigEntries(pl[k..], f) == start + ConfigEntries(pl, f)
    {
      assert pl[k..][0] == pl[k] && pl[k..][1..] == pl[k + 1..];
      var entry := ConfigEntry(pl[k], f);
      Regroup(buf, entry, ConfigEntries(pl[k + 1..], f));
      buf := buf + entry;
    }
    assert pl[|pl|..] == [];
  }

  /** The second buffer loop of syncConfig. */
  method WritePorts(start: string, pl: seq<PodRequest>) returns (buf: string)
    ensures buf == start + PortEntries(pl)
  {
    buf := start;
    for k := 0 to |pl|
      invariant buf + PortEntries(pl[k..]) == start + PortEntries(pl)
    {
      assert pl[k..][0] == pl[k] && pl[k..][1..] == pl[k + 1..];
      var entry := PortName(pl[k]) + ",";
      Regroup(buf, entry, PortEntries(pl[k + 1..]));
      buf := buf + entry;
    }
    assert pl[|pl|..] == [];
  }

  /** syncConfig's buffer; the request list may be nil. */
  method SyncConfig(uuid: string, podList: Option<seq<PodRequest>>, f: FloatText) returns (buf: string)
    ensures buf == Message(Config(uuid, if podList.Some? then podList.value else []), f) + "\n"
  {
    buf := uuid + ":";
    if podList.Some? {
      buf := WriteConfigs(buf, podList.value, f);
    }
    buf := buf + ":";
    if podList.Some? {
      buf := WritePorts(buf, podList.value);
    }
    buf := buf + "\n";
  }

  /** The two files handleRequest writes for a GPU. */
  datatype Files = Files(uuid: string, config: string, ports: string)

  function FileText(entries: string): string {
    Decimal(Count(entries, ',')) + "\n" + Replace(entries, ',', '\n')
  }

  /** handleRequest on a line without its line end; a line without three fields is ignored. */
  function HandleRequest(r: string): Option<Files> {
    var fields := Split(r, ':');
    if |fields| != 3 then None
    else Some(Files(fields[0], FileText(fields[1]), FileText(fields[2])))
  }

  /** What the reader makes of a file: its names up to the first exception. */
  datatype Reading = Empty | BadCount | Names(names: seq<string>, complete: bool)

  function DropLast(s: string): string {
    if s == "" then "" else s[..|s| - 1]
  }

  /** The loop over lines 1..podnum: an IndexError or a line without two words ends it. */
  function ReadNames(lines: seq<string>, i: nat, podnum: int): Reading
    requires 0 < i
    decreases podnum - i
  {
    if i > podnum then Names([], true)
    else if i >= |lines| || |Words(lines[i])| != 2 then Names([], false)
    else
      var rest := ReadNames(lines, i + 1, podnum);
      if rest.Names? then Names([DropLast(lines[i])] + rest.names, rest.complete) else rest
  }

  /** update_podmanager up to its table: int() on an empty first field raises too. */
  function ReadFile(text: string): Reading {
    var lines := Lines(UniversalNewlines(text));
    if lines == [] then Empty
    else
      match PyInt(lines[0])
      case None => BadCount
      case Some(podnum) => ReadNames(lines, 1, podnum)
  }

  // ----- Round trip

  /** What a key must be like to survive the trip; "namespace/name" is. */
  ghost predicate GoodKey(key: string) {
    key != "" && NoSpace(key) && ':' !in key && ',' !in key
  }

  ghost predicate GoodKeys(pl: seq<PodRequest>) {
    forall e :: e in pl ==> GoodKey(e.key)
  }

  ghost predicate Plain(s: string) {
    ':' !in s && ',' !in s && '\n' !in s && '\r' !in s
  }

  lemma DecimalPlain(n: int)
    ensures Plain(Decimal(n)) && NoSpace(Decimal(n)) && Decimal(n) != ""
  {
    var s := NatText(if n < 0 then -n else n);
    forall c | c in Decimal(n) ensures !IsSpace(c) && c != ':' && c != ',' {
      assert c in s ==> IsDigit(c);
    }
  }

  lemma PortNamePlain(e: PodRequest)
    requires GoodKey(e.key)
    ensures Plain(PortName(e)) && Words(PortName(e) + "\n") == [e.key, Decimal(e.port)]
  {
    DecimalPlain(e.port);
    var d := Decimal(e.port);
    WordsFirst(d, '\n', "");
    assert d + ['\n'] + "" == d + "\n";
    WordsFirst(e.key, ' ', d + "\n");
    assert PortName(e) + "\n" == e.key + [' '] + (d + "\n");
    assert forall c :: c in PortName(e) ==> c in e.key || c == ' ' || c in d;
  }

  /** The port section after the config client's commas have become line ends. */
  function PortLines(pl: seq<PodRequest>): string {
    if pl == [] then "" else PortName(pl[0]) + "\n" + PortLines(pl[1..])
  }

  lemma {:induction false} PortSection(pl: seq<PodRequest>)
    requires GoodKeys(pl)
    ensures Count(PortEntries(pl), ',') == |pl| && Replace(PortEntries(pl), ',', '\n') == PortLines(pl)
    ensures ':' !in PortEntries(pl) && '\n' !in PortEntries(pl) && '\r' !in PortLines(pl)
  {
    if pl != [] {
      PortSection(pl[1..]);
      var name, rest := PortName(pl[0]), PortEntries(pl[1..]);
      PortNamePlain(pl[0]);
      CountNone(name, ',');
      ReplaceNone(name, ',', '\n');
      CountConcat(name, ",", ',');
      CountConcat(name + ",", rest, ',');
      ReplaceConcat(name, ",", ',', '\n');
      ReplaceConcat(name + ",", rest, ',', '\n');
      assert Count(",", ',') == 1 && Replace(",", ',', '\n') == "\n";
    }
  }

  lemma {:induction false} ConfigSection(pl: seq<PodRequest>, f: FloatText)
    requires GoodKeys(pl) && PlainFloats(f)
    ensures ':' !in ConfigEntries(pl, f) && '\n' !in ConfigEntries(pl, f) && Count(ConfigEntries(pl, f), ',') == |pl|
  {
    if pl != [] {
      ConfigSection(pl[1..], f);
      var e := pl[0];
      DecimalPlain(e.memory);
      var body := ConfigText(e, f);
      assert forall c :: c in body ==>
               c in e.key || c == ' ' || c in f(e.request) || c in f(e.limit) || c in Decimal(e.memory);
      CountNone(body, ',');
      CountConcat(body, ",", ',');
      CountConcat(body + ",", ConfigEntries(pl[1..], f), ',');
      assert Count(",", ',') == 1;
    }
  }

  function NamesOf(pl: seq<PodRequest>): seq<string> {
    if pl == [] then [] else [PortName(pl[0])] + NamesOf(pl[1..])
  }

  function LinesOf(pl: seq<PodRequest>): seq<string> {
    if pl == [] then [] else [PortName(pl[0]) + "\n"] + LinesOf(pl[1..])
  }

  lemma {:induction false} PortFileLines(pl: seq<PodRequest>)
    requires GoodKeys(pl)
    ensures Lines(PortLines(pl)) == LinesOf(pl) && |LinesOf(pl)| == |pl|
  {
    if pl != [] {
      PortNamePlain(pl[0]);
      PortFileLines(pl[1..]);
      LinesFirst(PortName(pl[0]), PortLines(pl[1..]));
    }
  }

  lemma {:induction false} NamesRead(pl: seq<PodRequest>, lines: seq<string>, i: nat)
    requires GoodKeys(pl) && 0 < i <= |lines| && lines[i..] == LinesOf(pl)
    ensures ReadNames(lines, i, i + |pl| - 1) == Names(NamesOf(pl), true)
  {
    if pl != [] {
      PortNamePlain(pl[0]);
      assert lines[i] == lines[i..][0] && lines[i + 1..] == lines[i..][1..];
      NamesRead(pl[1..], lines, i + 1);
    }
  }

  /** The reader recovers, from the file of any list, its names in order. */
  lemma PortFileReadBack(pl: seq<PodRequest>)
    requires GoodKeys(pl)
    ensures ReadFile(FileText(PortEntries(pl))) == Names(NamesOf(pl), true)
  {
    PortSection(pl);
    PortFileLines(pl);
    DecimalPlain(|pl|);
    DecimalReadBack(|pl|);
    var text := FileText(PortEntries(pl));
    assert text == Decimal(|pl|) + "\n" + PortLines(pl);
    NoReturns(text);
    LinesFirst(Decimal(|pl|), PortLines(pl));
    NamesRead(pl, Lines(text), 1);
  }

  /** The line gives a name and a port. */
  predicate IsEntry(lines: seq<string>, i: nat) {
    i < |lines| && |Words(lines[i])| == 2
  }

  predicate NameIs(name: string, lines: seq<string>, i: nat) {
    IsEntry(lines, i) && name == DropLast(lines[i])
  }

  /** The names are those of the lines after the first, in order. */
  predicate TakenFrom(names: seq<string>, lines: seq<string>) {
    forall k :: 0 <= k < |names| ==> NameIs(names[k], lines, k + 1)
  }

  lemma {:induction false} ReadNameAt(lines: seq<string>, i: nat, podnum: int, k: nat)
    requires 0 < i && ReadNames(lines, i, podnum).Names? && k < |ReadNames(lines, i, podnum).names|
    ensures NameIs(ReadNames(lines, i, podnum).names[k], lines, i + k)
    decreases k
  {
    if k > 0 {
      ReadNameAt(lines, i + 1, podnum, k - 1);
    }
  }

  lemma {:induction false} ReadNamesEnd(lines: seq<string>, i: nat, podnum: int)
    requires 0 < i
    ensures var r := ReadNames(lines, i, podnum);
            && r.Names? && (r.names == [] || i + |r.names| <= podnum + 1)
            && (r.complete <==> i + |r.names| > podnum)
            && (!r.complete ==> !IsEntry(lines, i + |r.names|))
    decreases podnum - i
  {
    if i <= podnum && IsEntry(lines, i) {
      ReadNamesEnd(lines, i + 1, podnum);
    }
  }

  /** Of any file, the reader takes the lines before the first that is missing or has not two words. */
  lemma ReadNamesExactly(lines: seq<string>, podnum: int)
    ensures var r := ReadNames(lines, 1, podnum);
            && r.Names? && TakenFrom(r.names, lines)
            && (r.complete <==> |r.names| >= podnum)
            && (r.names == [] || |r.names| <= podnum)
            && (!r.complete ==> !IsEntry(lines, |r.names| + 1))
  {
    ReadNamesEnd(lines, 1, podnum);
    var names := ReadNames(lines, 1, podnum).names;
    forall k | 0 <= k < |names| ensures NameIs(names[k], lines, k + 1) {
      ReadNameAt(lines, 1, podnum, k);
    }
  }

  /**
   Print, split, count, replace and read back: for any list with good keys and a UUID without a
   colon the launcher reads exactly the list's "key port" names, in order, whatever the floats; and
   the config file's count is the number of requests. The message is one line, as recvRequest needs.
   */
  lemma WireRoundTrip(c: Config, f: FloatText)
    requires GoodKeys(c.podList) && PlainFloats(f) && ':' !in c.uuid && '\n' !in c.uuid
    ensures '\n' !in Message(c, f)
    ensures var r := HandleRequest(Message(c, f));
            && r.Some? && r.value.uuid == c.uuid
            && r.value.config == Decimal(|c.podList|) + "\n" + Replace(ConfigEntries(c.podList, f), ',', '\n')
            && ReadFile(r.value.ports) == Names(NamesOf(c.podList), true)
  {
    ConfigSection(c.podList, f);
    PortSection(c.podList);
    ThreeFields(c.uuid, ConfigEntries(c.podList, f), PortEntries(c.podList));
    PortFileReadBack(c.podList);
  }

  // ----- The config file

  /** Printed floats are words. */
  ghost predicate WordFloats(f: FloatText) {
    PlainFloats(f) && forall x: real :: f(x) != "" && NoSpace(f(x))
  }

  function ConfigLines(pl: seq<PodRequest>, f: FloatText): seq<string> {
    if pl == [] then [] else [ConfigText(pl[0], f) + "\n"] + ConfigLines(pl[1..], f)
  }

  function ConfigFile(pl: seq<PodRequest>, f: FloatText): string {
    if pl == [] then "" else ConfigText(pl[0], f) + "\n" + ConfigFile(pl[1..], f)
  }

  lemma ConfigTextPlain(e: PodRequest, f: FloatText)
    requires GoodKey(e.key) && WordFloats(f)
    ensures Plain(ConfigText(e, f))
  {
    DecimalPlain(e.memory);
    assert forall c :: c in ConfigText(e, f) ==>
             c in e.key || c == ' ' || c in f(e.request) || c in f(e.limit) || c in Decimal(e.memory);
  }

  lemma ConfigTextWords(e: PodRequest, f: FloatText)
    requires GoodKey(e.key) && WordFloats(f)
    ensures Words(ConfigText(e, f) + "\n") == [e.key, f(e.request), f(e.limit), Decimal(e.memory)]
  {
    DecimalPlain(e.memory);
    var m := Decimal(e.memory);
    WordsFirst(m, '\n', "");
    assert m + ['\n'] + "" == m + "\n";
    WordsFirst(f(e.limit), ' ', m + "\n");
    WordsFirst(f(e.request), ' ', f(e.limit) + [' '] + (m + "\n"));
    WordsFirst(e.key, ' ', f(e.request) + [' '] + (f(e.limit) + [' '] + (m + "\n")));
    assert ConfigText(e, f) + "\n" == e.key + [' '] + (f(e.request) + [' '] + (f(e.limit) + [' '] + (m + "\n")));
  }

  lemma {:induction false} ConfigFileLines(pl: seq<PodRequest>, f: FloatText)
    requires GoodKeys(pl) && WordFloats(f)
    ensures Replace(ConfigEntries(pl, f), ',', '\n') == ConfigFile(pl, f)
    ensures Lines(ConfigFile(pl, f)) == ConfigLines(pl, f) && '\r' !in ConfigFile(pl, f)
  {
    if pl != [] {
      ConfigTextPlain(pl[0], f);
      ConfigFileLines(pl[1..], f);
      var text, rest := ConfigText(pl[0], f), ConfigEntries(pl[1..], f);
      ReplaceNone(text, ',', '\n');
      ReplaceConcat(text, ",", ',', '\n');
      ReplaceConcat(text + ",", rest, ',', '\n');
      assert Replace(",", ',', '\n') == "\n";
      LinesFirst(text, ConfigFile(pl[1..], f));
    }
  }

  lemma {:induction false} ConfigLineAt(pl: seq<PodRequest>, f: FloatText, i: nat)
    requires i < |pl|
    ensures |ConfigLines(pl, f)| == |pl| && ConfigLines(pl, f)[i] == ConfigText(pl[i], f) + "\n"
  {
    if |pl| > 1 {
      ConfigLineAt(pl[1..], f, if i > 0 then i - 1 else 0);
    }
  }

  /**
   The config file of any list has its count on the first line and then, for each request in order, a
   line whose words are its key, request, limit and memory.
   */
  lemma ConfigFileReadBack(pl: seq<PodRequest>, f: FloatText, i: nat)
    requires GoodKeys(pl) && WordFloats(f) && i < |pl|
    ensures var lines := Lines(UniversalNewlines(FileText(ConfigEntries(pl, f))));
            && |lines| == |pl| + 1 && lines[0] == Decimal(|pl|) + "\n"
            && Words(lines[i + 1]) == [pl[i].key, f(pl[i].request), f(pl[i].limit), Decimal(pl[i].memory)]
  {
    ConfigSection(pl, f);
    ConfigFileLines(pl, f);
    ConfigLineAt(pl, f, i);
    assert pl[i] in pl;
    ConfigTextWords(pl[i], f);
    DecimalPlain(|pl|);
    var text := FileText(ConfigEntries(pl, f));
    assert text == Decimal(|pl|) + "\n" + ConfigFile(pl, f);
    NoReturns(text);
    LinesFirst(Decimal(|pl|), ConfigFile(pl, f));
  }

  lemma ThreeFields(a: string, b: string, c: string)
    requires ':' !in a && ':' !in b && ':' !in c
    ensures Split(a + ":" + b + ":" + c, ':') == [a, b, c]
  {
    assert a + ":" + b + ":" + c == a + [':'] + (b + [':'] + c);
    SplitFirst(a, ':', b + [':'] + c);
    SplitFirst(b, ':', c);
    SplitNone(c, ':');
  }

  lemma NameDeterminesKey(e: PodRequest, e': PodRequest)
    requires GoodKey(e.key) && GoodKey(e'.key) && PortName(e) == PortName(e')
    ensures e.key == e'.key && Decimal(e.port) == Decimal(e'.port)
  {
    PortNamePlain(e);
    PortNamePlain(e');
    assert [e.key, Decimal(e.port)] == [e'.key, Decimal(e'.port)];
    assert [e.key, Decimal(e.port)][0] == e.key && [e.key, Decimal(e.port)][1] == Decimal(e.port);
  }

  /** A line is ignored exactly when it has not two colons. */
  lemma IgnoredExactly(r: string)
    ensures HandleRequest(r) == None <==> Count(r, ':') != 2
  {
    SplitCount(r, ':');
  }

  /** A name read back gives its key and port again: the two words determine both. */
  lemma NameDeterminesKeyAndPort(e: PodRequest, e': PodRequest)
    requires GoodKey(e.key) && GoodKey(e'.key)
    ensures PortName(e) == PortName(e') <==> e.key == e'.key && e.port == e'.port
  {
    if PortName(e) == PortName(e') {
      NameDeterminesKey(e, e');
      DecimalReadBack(e.port);
      DecimalReadBack(e'.port);
    }
  }
}
