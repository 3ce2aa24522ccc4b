// The inventory of a ServiceNow package: its printer and its checker
// (internal/servicenowpackage/package.go).
//
// Names and bodies are strings of bytes. The digest is any function to 64 lower-case hexadecimal
// digits.
module PackageInventory {
  import opened Wrappers
  import opened Sorting

  const SCOPE := "x_664635_topo"
  const APP_VERSION := "0.4.7"
  const INVENTORY_NAME := "package_inventory.csv"
  const MAX_ENTRY_BYTES: nat := 0x80_0000
  const DIGEST_LENGTH: nat := 64

  type Entries = map<string, string>

  datatype Error =
    | NoInventory | InvalidHeader | InvalidEntry | UnsafeEntry | InvalidDigest
    | MissingEntry(name: string) | DigestMismatch(name: string) | LineTooLong | WrongHeader | NotCovered

  // ----- strings

  function Find(s: string, c: char): (n: nat)
    ensures n <= |s| && (n < |s| ==> s[n] == c) && forall i :: 0 <= i < n ==> s[i] != c
  {
    if s == "" || s[0] == c then 0 else 1 + Find(s[1..], c)
  }

  lemma {:induction false} FindAt(s: string, c: char, t: string)
    requires c !in s
    ensures Find(s, c) == |s| && Find(s + [c] + t, c) == |s|
  {
    var w := s + [c] + t;
    assert w[|s|] == c;
    assert forall i :: 0 <= i < |s| ==> w[i] == s[i] && s[i] in s;
  }

  // The lines of a text; a last line without newline counts if it is not empty.
  function Lines(s: string): seq<string>
    decreases |s|
  {
    if s == "" then []
    else
      var n := Find(s, '\n');
      if n < |s| then [s[..n]] + Lines(s[n + 1..]) else [s]
  }

  lemma {:induction false} LinesFree(s: string)
    ensures forall line :: line in Lines(s) ==> '\n' !in line
    decreases |s|
  {
    if s != "" && Find(s, '\n') < |s| { LinesFree(s[Find(s, '\n') + 1..]); }
  }

  function Text(lines: seq<string>): string {
    if lines == [] then "" else lines[0] + "\n" + Text(lines[1..])
  }

  lemma {:induction false} LinesCons(line: string, rest: string)
    requires '\n' !in line
    ensures Lines(line + "\n" + rest) == [line] + Lines(rest)
  {
    var s := line + "\n" + rest;
    FindAt(line, '\n', rest);
    assert s == line + ['\n'] + rest;
    assert s[..|line|] == line && s[|line| + 1..] == rest;
  }

  lemma {:induction false} LinesOfText(lines: seq<string>)
    requires forall line :: line in lines ==> '\n' !in line
    ensures Lines(Text(lines)) == lines
  {
    if lines != [] {
      hide Lines;
      LinesCons(lines[0], Text(lines[1..]));
      LinesOfText(lines[1..]);
      assert lines == [lines[0]] + lines[1..];
    } else {
      assert Text(lines) == "";
    }
  }

  lemma {:induction false} TextAppend(lines: seq<string>, line: string)
    ensures Text(lines + [line]) == Text(lines) + line + "\n"
  {
    if lines == [] {
      assert lines + [line] == [line] && [line][1..] == [];
    } else {
      assert (lines + [line])[1..] == lines[1..] + [line];
      TextAppend(lines[1..], line);
    }
  }

  predicate StartsWith(s: string, c: char) { s != "" && s[0] == c }

  function TrimCR(s: string): string { if s != "" && s[|s| - 1] == '\r' then s[..|s| - 1] else s }

  // ----- safe names

  // path.Clean leaves a relative name alone if it is a single dot, or its components are not
  // empty and not dots, but for double dots at the front.
  function Components(s: string): seq<string>
    decreases |s|
  {
    var n := Find(s, '/');
    if n < |s| then [s[..n]] + Components(s[n + 1..]) else [s]
  }

  predicate CleanComponents(cs: seq<string>) {
    cs == [] || (cs[0] == ".." && CleanComponents(cs[1..])) || (forall c :: c in cs ==> c != "" && c != "." && c != "..")
  }

  predicate IsClean(name: string) { name == "." || CleanComponents(Components(name)) }

  predicate HasPrefix(s: string, p: string) { |p| <= |s| && s[..|p|] == p }

  function SafeName(value: string): Option<string> {
    if '\\' in value || '\0' in value then None
    else
      var name := if StartsWith(value, '/') then value[1..] else value;
      if name == "" || StartsWith(name, '/') || !IsClean(name) || HasPrefix(name, "../") || name[|name| - 1] == '/' then None
      else Some(name)
  }

  // A safe name is its own safe form.
  lemma {:induction false} SafeNameStable(value: string)
    requires SafeName(value).Some?
    ensures SafeName(SafeName(value).value) == SafeName(value)
  {
  }

  // ----- reading an inventory

  predicate HexDigit(c: char) { '0' <= c <= '9' || 'a' <= c <= 'f' || 'A' <= c <= 'F' }

  function Lower(s: string): string {
    seq(|s|, i requires 0 <= i < |s| => if 'A' <= s[i] <= 'Z' then s[i] + 32 as char else s[i])
  }

  ghost predicate HexDigest(digest: string -> string) {
    forall body :: |digest(body)| == DIGEST_LENGTH && forall i :: 0 <= i < |digest(body)| ==>
      '0' <= digest(body)[i] <= '9' || 'a' <= digest(body)[i] <= 'f'
  }

  // What was read so far: headers, and the listed names with their digests.
  datatype Parsed = Parsed(headers: map<string, string>, listed: map<string, string>)

  function ReadHeader(p: Parsed, header: string): Result<Parsed, Error> {
    var n := Find(header, '=');
    if n == |header| then Err(InvalidHeader)
    else
      var key, value := header[..n], header[n + 1..];
      if key == "" || (key in p.headers && p.headers[key] != "") then Err(InvalidHeader)
      else Ok(p.(headers := p.headers[key := value]))
  }

  function ReadEntry(digest: string -> string, entries: Entries, p: Parsed, line: string): Result<Parsed, Error> {
    var n := Find(line, ';');
    if n == |line| || ';' in line[n + 1..] then Err(InvalidEntry)
    else
      var safe, sum := SafeName(line[..n]), line[n + 1..];
      if safe.None? || safe.value == INVENTORY_NAME || safe.value in p.listed then Err(UnsafeEntry)
      else if |sum| != DIGEST_LENGTH || exists i :: 0 <= i < |sum| && !HexDigit(sum[i]) then Err(InvalidDigest)
      else if safe.value !in entries then Err(MissingEntry(safe.value))
      else if digest(entries[safe.value]) != Lower(sum) then Err(DigestMismatch(safe.value))
      else Ok(p.(listed := p.listed[safe.value := Lower(sum)]))
  }

  // The scanner drops a carriage return at the end of a line, and the checker another.
  function ReadLine(digest: string -> string, entries: Entries, p: Parsed, raw: string): Result<Parsed, Error> {
    if |raw| >= MAX_ENTRY_BYTES then Err(LineTooLong)
    else
      var line := TrimCR(TrimCR(raw));
      if StartsWith(line, '#') then ReadHeader(p, line[1..]) else ReadEntry(digest, entries, p, line)
  }

  function ReadAll(digest: string -> string, entries: Entries, lines: seq<string>): Result<Parsed, Error> {
    if lines == [] then Ok(Parsed(map[], map[]))
    else
      var before := ReadAll(digest, entries, lines[..|lines| - 1]);
      if before.Err? then before else ReadLine(digest, entries, before.value, lines[|lines| - 1])
  }

  const WANTED_HEADERS := ["build", "appVersion", "type", "version"]
  const WANTED_VALUES := [SCOPE, APP_VERSION, "scoped", "1.0.0"]

  predicate HeadersRight(headers: map<string, string>) {
    forall i :: 0 <= i < 4 ==> WANTED_HEADERS[i] in headers && headers[WANTED_HEADERS[i]] == WANTED_VALUES[i]
  }

  function Validate(digest: string -> string, entries: Entries): Result<Parsed, Error> {
    if INVENTORY_NAME !in entries then Err(NoInventory)
    else
      var read := ReadAll(digest, entries, Lines(entries[INVENTORY_NAME]));
      if read.Err? then read
      else if !HeadersRight(read.value.headers) then Err(WrongHeader)
      else if |read.value.listed| != |entries| - 1 then Err(NotCovered)
      else read
  }

  // ----- what an accepted inventory says

  ghost predicate ListedOK(digest: string -> string, entries: Entries, p: Parsed) {
    forall name :: name in p.listed ==>
      && name in entries && name != INVENTORY_NAME && p.listed[name] == digest(entries[name])
      && ';' !in name && '\n' !in name && SafeName(name) == Some(name)
  }

  lemma {:induction false} EntryListed(digest: string -> string, entries: Entries, p: Parsed, line: string)
    requires ListedOK(digest, entries, p) && '\n' !in line && ReadEntry(digest, entries, p, line).Ok?
    ensures ListedOK(digest, entries, ReadEntry(digest, entries, p, line).value)
  {
    hide HexDigit;
    var n := Find(line, ';');
    SafeNameStable(line[..n]);
    var name := SafeName(line[..n]).value;
    assert name == line[..n] || name == line[..n][1..];
    assert ';' !in line[..n];
  }

  lemma {:induction false} ReadAllListed(digest: string -> string, entries: Entries, lines: seq<string>)
    requires ReadAll(digest, entries, lines).Ok? && forall line :: line in lines ==> '\n' !in line
    ensures ListedOK(digest, entries, ReadAll(digest, entries, lines).value)
    ensures forall line :: line in lines ==> |line| < MAX_ENTRY_BYTES
  {
    if lines != [] {
      hide ReadEntry, ReadHeader, ListedOK;
      var before, raw := lines[..|lines| - 1], lines[|lines| - 1];
      ReadAllListed(digest, entries, before);
      var p := ReadAll(digest, entries, before).value;
      var line := TrimCR(TrimCR(raw));
      assert raw in lines && '\n' !in line;
      if StartsWith(line, '#') { HeaderKeepsListed(p, line[1..]); } else { EntryListed(digest, entries, p, line); }
      assert lines == before + [raw];
    }
  }

  lemma {:induction false} HeaderKeepsListed(p: Parsed, header: string)
    requires ReadHeader(p, header).Ok?
    ensures ReadHeader(p, header).value.listed == p.listed
    ensures forall digest, entries :: ListedOK(digest, entries, p) ==> ListedOK(digest, entries, ReadHeader(p, header).value)
  {
  }

  lemma {:induction false} SubsetOfSameSize<T>(a: set<T>, b: set<T>)
    requires a <= b && |a| == |b|
    ensures a == b
  {
    assert |b - a| == |b| - |a|;
  }

  // THEOREM. An accepted inventory lists every other entry with its digest, and nothing else.
  lemma {:induction false} AcceptedMeaning(digest: string -> string, entries: Entries)
    requires Validate(digest, entries).Ok?
    ensures var listed := Validate(digest, entries).value.listed;
      && listed.Keys == entries.Keys - {INVENTORY_NAME}
      && forall name :: name in listed ==> listed[name] == digest(entries[name])
    ensures ListedOK(digest, entries, Validate(digest, entries).value)
  {
    hide ReadAll;
    LinesFree(entries[INVENTORY_NAME]);
    ReadAllListed(digest, entries, Lines(entries[INVENTORY_NAME]));
    var listed := Validate(digest, entries).value.listed;
    assert listed.Keys <= entries.Keys - {INVENTORY_NAME};
    assert |listed.Keys| == |listed| && |entries.Keys| == |entries|;
    SubsetOfSameSize(listed.Keys, entries.Keys - {INVENTORY_NAME});
  }

  // What a text lists does not depend on the entries it is checked against.
  lemma {:induction false} SameListing(digest: string -> string, a: Entries, b: Entries, lines: seq<string>)
    requires ReadAll(digest, a, lines).Ok? && ReadAll(digest, b, lines).Ok?
    ensures ReadAll(digest, a, lines) == ReadAll(digest, b, lines)
  {
    hide Lower, HexDigit, SafeName;
    if lines != [] { SameListing(digest, a, b, lines[..|lines| - 1]); }
  }

  // THEOREM (binding). If one inventory is accepted in two packages they are equal, or they hold
  // different bodies of one name and one digest.
  lemma {:induction false} InventoryBinds(digest: string -> string, a: Entries, b: Entries)
    requires Validate(digest, a).Ok? && Validate(digest, b).Ok? && a[INVENTORY_NAME] == b[INVENTORY_NAME]
    ensures a == b || exists name :: name in a && name in b && a[name] != b[name] && digest(a[name]) == digest(b[name])
  {
    hide ReadAll, Lines, HeadersRight, ListedOK;
    SameListing(digest, a, b, Lines(a[INVENTORY_NAME]));
    AcceptedMeaning(digest, a);
    AcceptedMeaning(digest, b);
    var listed := Validate(digest, a).value.listed;
    assert a.Keys == listed.Keys + {INVENTORY_NAME} == b.Keys;
    forall name | name in a ensures digest(a[name]) == digest(b[name]) {
      if name != INVENTORY_NAME { assert name in listed; }
    }
  }

  // ----- printing an inventory

  function HeaderLine(key: string, value: string): string { "#" + key + "=" + value }

  function HeaderLines(): seq<string> {
    [HeaderLine("build", SCOPE), HeaderLine("appVersion", APP_VERSION), HeaderLine("type", "scoped"), HeaderLine("version", "1.0.0")]
  }

  function EntryLine(digest: string -> string, entries: Entries, name: string): string
    requires name in entries
  {
    name + ";" + digest(entries[name])
  }

  function EntryLines(digest: string -> string, entries: Entries, names: seq<string>): seq<string>
    requires forall name :: name in names ==> name in entries
  {
    seq(|names|, i requires 0 <= i < |names| => EntryLine(digest, entries, names[i]))
  }

  ghost function Names(entries: Entries): seq<string> { InOrder(entries.Keys - {INVENTORY_NAME}) }

  ghost function Rewritten(digest: string -> string, entries: Entries): Entries {
    InOrderCorrect(entries.Keys - {INVENTORY_NAME});
    entries[INVENTORY_NAME := Text(HeaderLines() + EntryLines(digest, entries, Names(entries)))]
  }

  // The names that survive printing and reading.
  predicate Listable(name: string) {
    && ';' !in name && '\n' !in name && !StartsWith(name, '#') && SafeName(name) == Some(name)
    && |name| + 1 + DIGEST_LENGTH < MAX_ENTRY_BYTES
  }

  lemma {:induction false} DigestLine(digest: string -> string, name: string, body: string)
    requires HexDigest(digest)
    ensures var line := name + ";" + digest(body);
      && TrimCR(TrimCR(line)) == line && |line| == |name| + 1 + DIGEST_LENGTH && ('\n' in line <==> '\n' in name)
      && (StartsWith(line, '#') <==> StartsWith(name, '#'))
  {
    var line, sum := name + ";" + digest(body), digest(body);
    assert line[|line| - 1] == sum[DIGEST_LENGTH - 1];
    assert forall c :: c in line <==> c in name || c == ';' || c in sum;
    assert forall i :: 0 <= i < |sum| ==> sum[i] != '\n';
  }

  lemma {:induction false} LowerHex(digest: string -> string, body: string)
    requires HexDigest(digest)
    ensures Lower(digest(body)) == digest(body) && forall i :: 0 <= i < DIGEST_LENGTH ==> HexDigit(digest(body)[i]) && digest(body)[i] != ';'
  {
  }

  // Reading back the line of a listable name.
  lemma {:induction false} ReadPrinted(digest: string -> string, entries: Entries, p: Parsed, name: string)
    requires HexDigest(digest) && name in entries && name != INVENTORY_NAME && Listable(name) && name !in p.listed
    ensures ReadLine(digest, entries, p, EntryLine(digest, entries, name)) == Ok(p.(listed := p.listed[name := digest(entries[name])]))
  {
    hide HexDigest, SafeName, HexDigit, Lower;
    var sum := digest(entries[name]);
    var line := EntryLine(digest, entries, name);
    DigestLine(digest, name, entries[name]);
    LowerHex(digest, entries[name]);
    assert |sum| == DIGEST_LENGTH by { DigestSize(digest, entries[name]); }
    FindAt(name, ';', sum);
    assert line == name + [';'] + sum;
    assert line[..|name|] == name && line[|name| + 1..] == sum;
    ReadSplit(digest, entries, p, line, name, sum);
  }

  lemma {:induction false} DigestSize(digest: string -> string, body: string)
    requires HexDigest(digest)
    ensures |digest(body)| == DIGEST_LENGTH
  {
  }

  lemma {:induction false} ReadSplit(digest: string -> string, entries: Entries, p: Parsed, line: string, name: string, sum: string)
    requires Find(line, ';') == |name| < |line| && line[..|name|] == name && line[|name| + 1..] == sum && ';' !in sum
    requires SafeName(name) == Some(name) && name != INVENTORY_NAME && name !in p.listed && name in entries
    requires |sum| == DIGEST_LENGTH && (forall i :: 0 <= i < DIGEST_LENGTH ==> HexDigit(sum[i])) && digest(entries[name]) == sum == Lower(sum)
    ensures ReadEntry(digest, entries, p, line) == Ok(p.(listed := p.listed[name := sum]))
  {
    hide SafeName, HexDigit, Lower, Find;
  }

  lemma {:induction false} ReadHeaderLine(digest: string -> string, entries: Entries, p: Parsed, key: string, value: string)
    requires key != "" && '=' !in key && key !in p.headers && |key| + |value| < 100
    requires value != "" && value[|value| - 1] != '\r'
    ensures ReadLine(digest, entries, p, HeaderLine(key, value)) == Ok(p.(headers := p.headers[key := value]))
  {
    var line := HeaderLine(key, value);
    assert line[|line| - 1] == value[|value| - 1];
    assert line[1..] == key + ['='] + value;
    FindAt(key, '=', value);
    assert line[1..][..|key|] == key && line[1..][|key| + 1..] == value;
  }

  function PrintedHeaders(): map<string, string> {
    map["build" := SCOPE, "appVersion" := APP_VERSION, "type" := "scoped", "version" := "1.0.0"]
  }

  lemma {:induction false} HeadersRead(digest: string -> string, entries: Entries)
    ensures ReadAll(digest, entries, HeaderLines()) == Ok(Parsed(PrintedHeaders(), map[]))
  {
    hide ReadLine;
    var hs := HeaderLines();
    var p0 := Parsed(map[], map[]);
    var p1 := p0.(headers := p0.headers["build" := SCOPE]);
    var p2 := p1.(headers := p1.headers["appVersion" := APP_VERSION]);
    var p3 := p2.(headers := p2.headers["type" := "scoped"]);
    ReadHeaderLine(digest, entries, p0, "build", SCOPE);
    ReadHeaderLine(digest, entries, p1, "appVersion", APP_VERSION);
    ReadHeaderLine(digest, entries, p2, "type", "scoped");
    ReadHeaderLine(digest, entries, p3, "version", "1.0.0");
    assert hs[..4] == hs && hs[..4][..3] == hs[..3] && hs[..3][..2] == hs[..2] && hs[..2][..1] == hs[..1] && hs[..1][..0] == [];
    assert ReadAll(digest, entries, hs[..1]) == Ok(p1);
    assert ReadAll(digest, entries, hs[..2]) == Ok(p2);
    assert ReadAll(digest, entries, hs[..3]) == Ok(p3);
    assert p3.headers["version" := "1.0.0"] == PrintedHeaders();
  }

  function Digests(digest: string -> string, entries: Entries, names: seq<string>): map<string, string>
    requires forall name :: name in names ==> name in entries
  {
    map name | name in names :: digest(entries[name])
  }

  lemma {:induction false} LastLine(digest: string -> string, entries: Entries, names: seq<string>)
    requires names != [] && forall name :: name in names ==> name in entries
    ensures var before, name := names[..|names| - 1], names[|names| - 1]; var all := HeaderLines() + EntryLines(digest, entries, names);
      && name in entries && (forall n :: n in before ==> n in entries)
      && all != [] && all[..|all| - 1] == HeaderLines() + EntryLines(digest, entries, before)
      && all[|all| - 1] == EntryLine(digest, entries, name)
  {
    hide HeaderLines, EntryLine;
    assert names[|names| - 1] in names && forall n :: n in names[..|names| - 1] ==> n in names;
  }

  lemma {:induction false} PrintedRead(digest: string -> string, entries: Entries, names: seq<string>)
    requires HexDigest(digest) && NoDuplicates(names)
    requires forall name :: name in names ==> name in entries && name != INVENTORY_NAME && Listable(name)
    ensures ReadAll(digest, entries, HeaderLines() + EntryLines(digest, entries, names)) ==
      Ok(Parsed(PrintedHeaders(), Digests(digest, entries, names)))
  {
    hide HexDigest, ReadLine, PrintedHeaders, HeaderLines, Listable;
    var lines := EntryLines(digest, entries, names);
    if names == [] {
      HeadersRead(digest, entries);
      assert HeaderLines() + lines == HeaderLines();
    } else {
      var before, name := names[..|names| - 1], names[|names| - 1];
      assert forall n :: n in before ==> n in names;
      PrintedRead(digest, entries, before);
      LastLine(digest, entries, names);
      hide EntryLines, EntryLine;
      var p := Parsed(PrintedHeaders(), Digests(digest, entries, before));
      assert name !in before && name in names;
      ReadPrinted(digest, entries, p, name);
      assert names == before + [name];
      assert Digests(digest, entries, names) == Digests(digest, entries, before)[name := digest(entries[name])];
    }
  }

  lemma {:induction false} PrintedLines(digest: string -> string, entries: Entries)
    requires HexDigest(digest) && forall name :: name in entries && name != INVENTORY_NAME ==> '\n' !in name
    ensures forall name :: name in Names(entries) ==> name in entries
    ensures Lines(Rewritten(digest, entries)[INVENTORY_NAME]) == HeaderLines() + EntryLines(digest, entries, Names(entries))
  {
    var names := Names(entries);
    InOrderCorrect(entries.Keys - {INVENTORY_NAME});
    var lines := HeaderLines() + EntryLines(digest, entries, names);
    forall line | line in lines ensures '\n' !in line {
      if line !in HeaderLines() {
        var i :| 0 <= i < |names| && line == EntryLine(digest, entries, names[i]);
        assert names[i] in names;
        DigestLine(digest, names[i], entries[names[i]]);
      }
    }
    LinesOfText(lines);
  }

  lemma {:induction false} PrintedHeadersRight()
    ensures HeadersRight(PrintedHeaders())
  {
  }

  lemma {:induction false} ListableLine(name: string)
    requires Listable(name)
    ensures '\n' !in name
  {
  }

  lemma {:induction false} PrintedReadBack(digest: string -> string, entries: Entries)
    requires HexDigest(digest) && forall name :: name in entries && name != INVENTORY_NAME ==> Listable(name)
    ensures forall name :: name in Names(entries) ==> name in entries
    ensures var entries' := Rewritten(digest, entries);
      ReadAll(digest, entries', Lines(entries'[INVENTORY_NAME])) == Ok(Parsed(PrintedHeaders(), Digests(digest, entries, Names(entries))))
  {
    hide HexDigest, ReadAll, Lines, HeaderLines, PrintedHeaders, Listable;
    var names, entries' := Names(entries), Rewritten(digest, entries);
    InOrderCorrect(entries.Keys - {INVENTORY_NAME});
    forall name | name in entries && name != INVENTORY_NAME ensures '\n' !in name {
      ListableLine(name);
    }
    PrintedLines(digest, entries);
    assert EntryLines(digest, entries, names) == EntryLines(digest, entries', names);
    assert Digests(digest, entries, names) == Digests(digest, entries', names);
    PrintedRead(digest, entries', names);
  }

  lemma {:induction false} AllCovered(entries: Entries, listed: map<string, string>)
    requires INVENTORY_NAME in entries && listed.Keys == entries.Keys - {INVENTORY_NAME}
    ensures |listed| == |entries| - 1
  {
    assert |listed| == |listed.Keys| && |entries| == |entries.Keys|;
  }

  // A printed inventory of listable names is accepted and reads back as it was.
  lemma {:induction false} ListableAccepted(digest: string -> string, entries: Entries)
    requires HexDigest(digest) && forall name :: name in entries && name != INVENTORY_NAME ==> Listable(name)
    ensures var read := Validate(digest, Rewritten(digest, entries));
      && read.Ok? && read.value.listed.Keys == entries.Keys - {INVENTORY_NAME}
      && forall name :: name in read.value.listed ==> read.value.listed[name] == digest(entries[name])
  {
    hide HexDigest, ReadAll, Lines, HeaderLines, PrintedHeaders, Listable, HeadersRight, EntryLines;
    var names, entries' := Names(entries), Rewritten(digest, entries);
    InOrderCorrect(entries.Keys - {INVENTORY_NAME});
    PrintedReadBack(digest, entries);
    PrintedHeadersRight();
    var listed := Digests(digest, entries, names);
    assert listed.Keys == entries.Keys - {INVENTORY_NAME};
    AllCovered(entries', listed);
  }

  ghost predicate OnEntryLines(listed: map<string, string>) {
    forall name :: name in listed ==> !StartsWith(name, '#') && |name| + 1 + DIGEST_LENGTH < MAX_ENTRY_BYTES
  }

  // What a reading lists comes from lines that are not headers.
  lemma {:induction false} ListedFromLines(digest: string -> string, entries: Entries, names: seq<string>)
    requires HexDigest(digest) && forall n :: n in names ==> n in entries && ';' !in n && '\n' !in n && SafeName(n) == Some(n)
    requires ReadAll(digest, entries, HeaderLines() + EntryLines(digest, entries, names)).Ok?
    ensures OnEntryLines(ReadAll(digest, entries, HeaderLines() + EntryLines(digest, entries, names)).value.listed)
  {
    hide HexDigest, HeaderLines, SafeName, PrintedHeaders, ReadLine;
    var lines := HeaderLines() + EntryLines(digest, entries, names);
    if names == [] {
      HeadersRead(digest, entries);
      assert lines == HeaderLines();
    } else {
      var before, last := names[..|names| - 1], names[|names| - 1];
      assert lines[..|lines| - 1] == HeaderLines() + EntryLines(digest, entries, before);
      assert lines[|lines| - 1] == EntryLine(digest, entries, last);
      assert last in names && forall n :: n in before ==> n in names;
      ListedFromLines(digest, entries, before);
      ReadNew(digest, entries, ReadAll(digest, entries, lines[..|lines| - 1]).value, last);
    }
  }

  lemma {:induction false} ReadNew(digest: string -> string, entries: Entries, p: Parsed, last: string)
    requires HexDigest(digest) && last in entries && ';' !in last && SafeName(last) == Some(last)
    requires OnEntryLines(p.listed) && ReadLine(digest, entries, p, EntryLine(digest, entries, last)).Ok?
    ensures OnEntryLines(ReadLine(digest, entries, p, EntryLine(digest, entries, last)).value.listed)
  {
    hide HexDigest, Lower, HexDigit, SafeName, ReadHeader, Find;
    var sum := digest(entries[last]);
    var line := EntryLine(digest, entries, last);
    DigestLine(digest, last, entries[last]);
    FindAt(last, ';', sum);
    assert line == last + [';'] + sum;
    assert line[..|last|] == last;
    if StartsWith(line, '#') && ReadHeader(p, line[1..]).Ok? { HeaderKeepsListed(p, line[1..]); }
  }

  lemma {:induction false} AcceptedListable(digest: string -> string, entries: Entries)
    requires HexDigest(digest) && Validate(digest, Rewritten(digest, entries)).Ok?
    ensures forall name :: name in entries && name != INVENTORY_NAME ==> Listable(name)
  {
    hide HexDigest, ReadAll, HeaderLines, Lines, HeadersRight, SafeName;
    var entries' := Rewritten(digest, entries);
    AcceptedMeaning(digest, entries');
    var p := Validate(digest, entries').value;
    forall name | name in entries && name != INVENTORY_NAME
      ensures name in p.listed && ';' !in name && '\n' !in name && SafeName(name) == Some(name)
    {
      assert name in p.listed.Keys;
    }
    PrintedLines(digest, entries);
    var names := Names(entries);
    InOrderCorrect(entries.Keys - {INVENTORY_NAME});
    assert EntryLines(digest, entries, names) == EntryLines(digest, entries', names);
    ListedFromLines(digest, entries', names);
  }

  // THEOREM (round trip, exactly). A rewritten package is accepted exactly if all its names are
  // listable; its inventory then reads back as every name with its digest.
  lemma {:induction false} RewriteAccepted(digest: string -> string, entries: Entries)
    requires HexDigest(digest)
    ensures var read := Validate(digest, Rewritten(digest, entries));
      && (read.Ok? <==> forall name :: name in entries && name != INVENTORY_NAME ==> Listable(name))
      && (read.Ok? ==> read.value.listed.Keys == entries.Keys - {INVENTORY_NAME})
      && (read.Ok? ==> forall name :: name in read.value.listed ==> read.value.listed[name] == digest(entries[name]))
  {
    hide HexDigest, Validate, Rewritten, Listable;
    if Validate(digest, Rewritten(digest, entries)).Ok? {
      AcceptedListable(digest, entries);
      ListableAccepted(digest, entries);
    } else if forall name :: name in entries && name != INVENTORY_NAME ==> Listable(name) {
      ListableAccepted(digest, entries);
    }
  }

  // ----- the package in place

  class Package {
    var entries: Entries

    constructor (entries: Entries)
      ensures this.entries == entries
    {
      this.entries := entries;
    }

    method RewriteInventory(digest: string -> string)
      modifies this
      ensures entries == Rewritten(digest, old(entries))
    {
      hide HeaderLines;
      var names := SortKeys(entries.Keys - {INVENTORY_NAME});
      InOrderCorrect(entries.Keys - {INVENTORY_NAME});
      var body := Print(digest, names);
      entries := entries[INVENTORY_NAME := body];
    }

    method Print(digest: string -> string, names: seq<string>) returns (body: string)
      requires forall name :: name in names ==> name in entries
      ensures body == Text(HeaderLines() + EntryLines(digest, entries, names))
    {
      hide HeaderLines, Text;
      body := Text(HeaderLines());
      ghost var lines := EntryLines(digest, entries, names);
      assert HeaderLines() + lines[..0] == HeaderLines();
      for i := 0 to |names|
        invariant body == Text(HeaderLines() + lines[..i])
      {
        var line := names[i] + ";" + digest(entries[names[i]]);
        TextAppend(HeaderLines() + lines[..i], line);
        assert HeaderLines() + lines[..i] + [line] == HeaderLines() + lines[..i + 1];
        body := body + (line + "\n");
        assert body == Text(HeaderLines() + lines[..i]) + line + "\n";
      }
      assert lines[..|names|] == lines;
    }

    method ValidateInventory(digest: string -> string) returns (r: Result<Parsed, Error>)
      ensures r == Validate(digest, entries)
    {
      hide ReadLine;
      if INVENTORY_NAME !in entries {
        return Err(NoInventory);
      }
      var lines := Lines(entries[INVENTORY_NAME]);
      var p := Parsed(map[], map[]);
      for i := 0 to |lines|
        invariant ReadAll(digest, entries, lines[..i]) == Ok(p)
      {
        assert lines[..i + 1][..i] == lines[..i];
        var read := ReadLine(digest, entries, p, lines[i]);
        if read.Err? {
          ErrorStays(digest, entries, lines, i + 1);
          return read;
        }
        p := read.value;
      }
      assert lines[..|lines|] == lines;
      if !HeadersRight(p.headers) {
        return Err(WrongHeader);
      }
      r := if |p.listed| != |entries| - 1 then Err(NotCovered) else Ok(p);
    }
  }

  lemma {:induction false} ErrorStays(digest: string -> string, entries: Entries, lines: seq<string>, n: nat)
    requires n <= |lines| && ReadAll(digest, entries, lines[..n]).Err?
    ensures ReadAll(digest, entries, lines) == ReadAll(digest, entries, lines[..n])
  {
    if n < |lines| {
      assert lines[..|lines| - 1][..n] == lines[..n];
      ErrorStays(digest, entries, lines[..|lines| - 1], n);
    } else {
      assert lines[..n] == lines;
    }
  }
}
