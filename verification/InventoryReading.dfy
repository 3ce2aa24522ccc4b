// Which inventories are accepted, line by line (internal/servicenowpackage/package.go).
module InventoryReading {
  import opened Wrappers
  import opened PackageInventory

  // ----- safe names

  predicate Plain(c: string) {
    c != "" && c != "." && c != ".." && '/' !in c && '\\' !in c && '\0' !in c
  }

  function Join(cs: seq<string>): string
    requires cs != []
  {
    if |cs| == 1 then cs[0] else cs[0] + "/" + Join(cs[1..])
  }

  // One or two dots alone, or plain components joined by single slashes.
  ghost predicate Safe(name: string) {
    name == "." || name == ".." || exists cs: seq<string> :: cs != [] && (forall c :: c in cs ==> Plain(c)) && name == Join(cs)
  }

  lemma {:induction false} JoinComponents(s: string)
    ensures Components(s) != [] && Join(Components(s)) == s && forall c :: c in Components(s) ==> '/' !in c
    decreases |s|
  {
    var n := Find(s, '/');
    if n < |s| {
      var rest := Components(s[n + 1..]);
      JoinComponents(s[n + 1..]);
      assert Components(s)[1..] == rest && s == s[..n] + "/" + s[n + 1..];
    }
  }

  lemma {:induction false} ComponentsOfJoin(cs: seq<string>)
    requires cs != [] && forall c :: c in cs ==> '/' !in c
    ensures Components(Join(cs)) == cs
  {
    var s := Join(cs);
    if |cs| == 1 {
      FindAt(cs[0], '/', "");
      assert cs == [s];
    } else {
      FindAt(cs[0], '/', Join(cs[1..]));
      assert s == cs[0] + ['/'] + Join(cs[1..]);
      assert s[..|cs[0]|] == cs[0] && s[|cs[0]| + 1..] == Join(cs[1..]);
      ComponentsOfJoin(cs[1..]);
    }
  }

  lemma {:induction false} PartsOfJoin(cs: seq<string>, c: string)
    requires cs != [] && c in cs
    ensures forall x :: x in c ==> x in Join(cs)
  {
    if |cs| > 1 && c != cs[0] { PartsOfJoin(cs[1..], c); }
  }

  lemma {:induction false} CharsOfJoin(cs: seq<string>, x: char)
    requires cs != [] && x in Join(cs)
    ensures x == '/' || exists c :: c in cs && x in c
  {
    if |cs| > 1 && x !in cs[0] && x != '/' { CharsOfJoin(cs[1..], x); }
  }

  lemma {:induction false} JoinEnds(cs: seq<string>)
    requires cs != [] && forall i :: 0 <= i < |cs| ==> cs[i] != ""
    ensures var s := Join(cs);
      s != "" && s[0] == cs[0][0] && s[|s| - 1] == cs[|cs| - 1][|cs[|cs| - 1]| - 1]
  {
    if |cs| > 1 {
      var rest := cs[1..];
      JoinEnds(rest);
      assert rest[|rest| - 1] == cs[|cs| - 1];
      assert Join(cs)[|Join(cs)| - 1] == Join(rest)[|Join(rest)| - 1];
    }
  }

  // What a name may be after its leading slash was dropped.
  predicate Passes(name: string) {
    && '\\' !in name && '\0' !in name && name != "" && !StartsWith(name, '/') && IsClean(name)
    && !HasPrefix(name, "../") && name[|name| - 1] != '/'
  }

  lemma {:induction false} PassesSafe(name: string)
    requires Passes(name)
    ensures Safe(name)
  {
    hide Components, Join;
    var cs := Components(name);
    JoinComponents(name);
    if name != "." {
      if |cs| == 1 {
        assert name == cs[0] by { JoinOne(cs[0]); assert cs == [cs[0]]; }
      } else {
        assert cs[0] != ".." by {
          JoinMore(cs);
          assert cs[0] == ".." ==> HasPrefix(name, "../");
        }
      }
      forall c | c in cs && name != ".." ensures Plain(c) {
        PartsOfJoin(cs, c);
      }
    }
  }

  lemma {:induction false} JoinOne(c: string)
    ensures Join([c]) == c
  {
  }

  lemma {:induction false} JoinMore(cs: seq<string>)
    requires |cs| > 1
    ensures Join(cs) == cs[0] + "/" + Join(cs[1..])
  {
  }

  lemma {:induction false} SafePasses(name: string)
    requires Safe(name)
    ensures Passes(name)
  {
    hide Components, Join;
    if name == "." {
    } else if name == ".." {
      JoinOne("..");
      ComponentsOfJoin([".."]);
      assert [".."][1..] == [];
    } else {
      var cs: seq<string> :| cs != [] && (forall c :: c in cs ==> Plain(c)) && name == Join(cs);
      ComponentsOfJoin(cs);
      assert forall i :: 0 <= i < |cs| ==> Plain(cs[i]) by {
        assert forall i :: 0 <= i < |cs| ==> cs[i] in cs;
      }
      JoinEnds(cs);
      forall x | x in name ensures x != '\\' && x != '\0' { CharsOfJoin(cs, x); }
      assert cs[0] in cs && cs[|cs| - 1] in cs && cs[0][0] in cs[0];
      assert name[|name| - 1] in cs[|cs| - 1];
      if HasPrefix(name, "../") { NoDots(cs); }
    }
  }

  lemma {:induction false} NoDots(cs: seq<string>)
    requires cs != [] && forall c :: c in cs ==> Plain(c)
    ensures !HasPrefix(Join(cs), "../")
  {
    var s, c := Join(cs), cs[0];
    assert Plain(c) && forall k :: 0 <= k < |c| ==> s[k] == c[k];
    if |c| >= 3 {
      assert c[2] in c && s[2] != '/';
    } else if |c| == 2 {
      assert c == [c[0], c[1]] && (s[0] != '.' || s[1] != '.');
    } else {
      assert c == [c[0]] && s[0] != '.';
    }
    assert |s| >= 3 ==> s[..3][0] == s[0] && s[..3][1] == s[1] && s[..3][2] == s[2];
  }

  // THEOREM (safe names). A name is taken exactly if it is safe, but for one leading slash, which
  // is dropped.
  lemma {:induction false} SafeNameExactly(value: string, name: string)
    ensures SafeName(value) == Some(name) <==> Safe(name) && (value == name || value == "/" + name)
  {
    hide IsClean, Safe;
    if SafeName(value) == Some(name) {
      assert forall x :: x in name ==> x in value;
      PassesSafe(name);
    }
    if Safe(name) && (value == name || value == "/" + name) {
      SafePasses(name);
      assert value == "/" + name ==> value[1..] == name;
    }
  }

  // ----- lines

  function Stripped(raw: string): string { TrimCR(TrimCR(raw)) }

  ghost predicate HeaderSays(raw: string, key: string, value: string) {
    key != "" && '=' !in key && Stripped(raw) == "#" + key + "=" + value
  }

  // A name, perhaps after a slash, and what should be its digest.
  ghost predicate EntrySays(raw: string, name: string, sum: string) {
    && ';' !in name && ';' !in sum && Safe(name) && !StartsWith(Stripped(raw), '#')
    && (Stripped(raw) == name + ";" + sum || Stripped(raw) == "/" + name + ";" + sum)
  }

  lemma {:induction false} HeaderParsed(raw: string, key: string, value: string)
    ensures var line := Stripped(raw);
      HeaderSays(raw, key, value) <==>
        && StartsWith(line, '#') && Find(line[1..], '=') < |line[1..]| && key != ""
        && key == line[1..][..Find(line[1..], '=')] && value == line[1..][Find(line[1..], '=') + 1..]
  {
    hide Stripped, Find;
    var line := Stripped(raw);
    if HeaderSays(raw, key, value) { HeaderSplit(line, key, value); }
    if StartsWith(line, '#') && Find(line[1..], '=') < |line[1..]| { HeaderJoined(line); }
  }

  lemma {:induction false} HeaderSplit(line: string, key: string, value: string)
    requires '=' !in key && line == "#" + key + "=" + value
    ensures StartsWith(line, '#')
    ensures var h := line[1..];
      Find(h, '=') == |key| < |h| && h[..|key|] == key && h[|key| + 1..] == value
  {
    FindAt(key, '=', value);
    assert line[1..] == key + ['='] + value;
  }

  lemma {:induction false} HeaderJoined(line: string)
    requires StartsWith(line, '#') && Find(line[1..], '=') < |line[1..]|
    ensures var h, n := line[1..], Find(line[1..], '=');
      '=' !in h[..n] && line == "#" + h[..n] + "=" + h[n + 1..]
  {
    var h, n := line[1..], Find(line[1..], '=');
    assert h == h[..n] + "=" + h[n + 1..];
    assert line == "#" + h == "#" + (h[..n] + "=" + h[n + 1..]);
  }

  lemma {:induction false} EntryParsed(raw: string, name: string, sum: string)
    ensures var line := Stripped(raw);
      EntrySays(raw, name, sum) <==>
        && !StartsWith(line, '#') && Find(line, ';') < |line| && ';' !in line[Find(line, ';') + 1..]
        && SafeName(line[..Find(line, ';')]) == Some(name) && sum == line[Find(line, ';') + 1..]
  {
    hide SafeName, Safe;
    var line, n := Stripped(raw), Find(Stripped(raw), ';');
    if EntrySays(raw, name, sum) {
      var value := if line == name + ";" + sum then name else "/" + name;
      FindAt(value, ';', sum);
      assert line == value + [';'] + sum;
      assert line[..|value|] == value && line[|value| + 1..] == sum;
      SafeNameExactly(value, name);
    }
    if n < |line| {
      assert line == line[..n] + ";" + line[n + 1..] && ';' !in line[..n];
      SafeNameExactly(line[..n], name);
    }
  }

  // A digest in hexadecimal digits of either case.
  predicate Hex(sum: string, digest: string) {
    && |sum| == 64 == |digest|
    && forall i :: 0 <= i < 64 ==>
         || (('0' <= sum[i] <= '9' || 'a' <= sum[i] <= 'f') && digest[i] == sum[i])
         || ('A' <= sum[i] <= 'F' && digest[i] as int == sum[i] as int + 32)
  }

  lemma {:induction false} HexExactly(sum: string, digest: string)
    ensures Hex(sum, digest) <==>
      |sum| == DIGEST_LENGTH && (forall i :: 0 <= i < |sum| ==> HexDigit(sum[i])) && digest == Lower(sum)
  {
    if |sum| == |digest| == 64 && Hex(sum, digest) {
      assert forall i :: 0 <= i < 64 ==> digest[i] == Lower(sum)[i];
    }
    if |sum| == 64 && (forall i :: 0 <= i < |sum| ==> HexDigit(sum[i])) && digest == Lower(sum) {
      assert forall i :: 0 <= i < 64 ==> HexDigit(sum[i]);
    }
  }

  // A header whose key was given no value before.
  ghost predicate HeaderFits(lines: seq<string>, i: nat)
    requires i < |lines|
  {
    exists key, value :: HeaderSays(lines[i], key, value) && NoValue(lines[..i], key)
  }

  ghost predicate NoValue(lines: seq<string>, key: string) {
    forall j, value :: 0 <= j < |lines| && HeaderSays(lines[j], key, value) ==> value == ""
  }

  // An entry not listed before, with its digest.
  ghost predicate EntryFits(digest: string -> string, entries: Entries, lines: seq<string>, i: nat)
    requires i < |lines|
  {
    exists name, sum :: EntrySays(lines[i], name, sum) && !Lists(lines[..i], name)
      && name != "package_inventory.csv" && name in entries && Hex(sum, digest(entries[name]))
  }

  ghost predicate Lists(lines: seq<string>, name: string) {
    exists j, sum :: 0 <= j < |lines| && EntrySays(lines[j], name, sum)
  }

  ghost predicate LineFits(digest: string -> string, entries: Entries, lines: seq<string>, i: nat)
    requires i < |lines|
  {
    |lines[i]| < 0x800000 && (HeaderFits(lines, i) || EntryFits(digest, entries, lines, i))
  }

  // What was read is what the lines say.
  ghost predicate Reflects(lines: seq<string>, p: Parsed) {
    && (forall i, key, value :: 0 <= i < |lines| && HeaderSays(lines[i], key, value) ==>
          key in p.headers && (value != "" ==> p.headers[key] == value))
    && (forall key :: key in p.headers ==> Given(lines, key, p.headers[key]))
    && (forall name :: name in p.listed <==> Lists(lines, name))
  }

  ghost predicate Given(lines: seq<string>, key: string, value: string) {
    exists i :: 0 <= i < |lines| && HeaderSays(lines[i], key, value)
  }

  lemma {:induction false} HeaderRead(lines: seq<string>, raw: string, p: Parsed)
    requires Reflects(lines, p) && StartsWith(Stripped(raw), '#')
    ensures ReadHeader(p, Stripped(raw)[1..]).Ok? <==> exists key, value :: HeaderSays(raw, key, value) && NoValue(lines, key)
    ensures var read := ReadHeader(p, Stripped(raw)[1..]);
      read.Ok? ==> Reflects(lines + [raw], read.value)
  {
    hide HeaderSays, EntrySays, Stripped;
    var h := Stripped(raw)[1..];
    var n := Find(h, '=');
    forall key, value ensures HeaderSays(raw, key, value) <==> n < |h| && key != "" && key == h[..n] && value == h[n + 1..] {
      HeaderParsed(raw, key, value);
    }
    if n < |h| && h[..n] != "" {
      var key := h[..n];
      assert HeaderSays(raw, key, h[n + 1..]);
      assert NoValue(lines, key) <==> !(key in p.headers && p.headers[key] != "");
      if ReadHeader(p, h).Ok? { HeaderReflected(lines, raw, p, key, h[n + 1..]); }
    }
  }

  lemma {:induction false} HeaderReflected(lines: seq<string>, raw: string, p: Parsed, key: string, value: string)
    requires Reflects(lines, p) && StartsWith(Stripped(raw), '#') && HeaderSays(raw, key, value) && NoValue(lines, key)
    requires forall k, v :: HeaderSays(raw, k, v) ==> k == key && v == value
    ensures Reflects(lines + [raw], p.(headers := p.headers[key := value]))
  {
    var all := lines + [raw];
    var p' := p.(headers := p.headers[key := value]);
    assert forall name, sum :: !EntrySays(raw, name, sum) by { hide Safe, Stripped; }
    hide HeaderSays, EntrySays, Stripped;
    forall k | k in p'.headers ensures Given(all, k, p'.headers[k]) {
      if k == key {
        assert all[|lines|] == raw;
      } else {
        var i :| 0 <= i < |lines| && HeaderSays(lines[i], k, p.headers[k]);
        assert all[i] == lines[i];
      }
    }
    forall name ensures Lists(all, name) <==> Lists(lines, name) { ListsMore(lines, raw, name); }
  }

  lemma {:induction false} ListsMore(lines: seq<string>, raw: string, name: string)
    ensures Lists(lines + [raw], name) <==> Lists(lines, name) || exists sum :: EntrySays(raw, name, sum)
  {
    hide EntrySays;
    var all := lines + [raw];
    if j, sum :| 0 <= j < |lines| && EntrySays(lines[j], name, sum) { assert all[j] == lines[j]; }
    if sum :| EntrySays(raw, name, sum) { assert all[|lines|] == raw; }
  }

  lemma {:induction false} EntryRead(digest: string -> string, entries: Entries, lines: seq<string>, raw: string, p: Parsed)
    requires Reflects(lines, p) && !StartsWith(Stripped(raw), '#')
    ensures ReadEntry(digest, entries, p, Stripped(raw)).Ok? <==>
      exists name, sum :: EntrySays(raw, name, sum) && !Lists(lines, name)
        && name != "package_inventory.csv" && name in entries && Hex(sum, digest(entries[name]))
    ensures var read := ReadEntry(digest, entries, p, Stripped(raw));
      read.Ok? ==> Reflects(lines + [raw], read.value)
  {
    hide HeaderSays, EntrySays, Stripped, SafeName, Lists, Hex, HexDigit, Lower;
    var line := Stripped(raw);
    var n := Find(line, ';');
    forall name, sum ensures EntrySays(raw, name, sum) <==>
      n < |line| && ';' !in line[n + 1..] && SafeName(line[..n]) == Some(name) && sum == line[n + 1..]
    {
      EntryParsed(raw, name, sum);
    }
    if n < |line| && ';' !in line[n + 1..] && SafeName(line[..n]).Some? {
      var name, sum := SafeName(line[..n]).value, line[n + 1..];
      assert EntrySays(raw, name, sum);
      if name in entries { HexExactly(sum, digest(entries[name])); }
      if ReadEntry(digest, entries, p, line).Ok? { EntryReflected(lines, raw, p, name, sum, Lower(sum)); }
    }
  }

  lemma {:induction false} EntryReflected(lines: seq<string>, raw: string, p: Parsed, name: string, sum: string, lower: string)
    requires Reflects(lines, p) && !StartsWith(Stripped(raw), '#') && EntrySays(raw, name, sum)
    requires forall k, v :: EntrySays(raw, k, v) ==> k == name
    ensures Reflects(lines + [raw], p.(listed := p.listed[name := lower]))
  {
    var all := lines + [raw];
    assert forall key, value :: !HeaderSays(raw, key, value);
    hide HeaderSays, EntrySays, Stripped;
    forall k | k in p.headers ensures Given(all, k, p.headers[k]) {
      var i :| 0 <= i < |lines| && HeaderSays(lines[i], k, p.headers[k]);
      assert all[i] == lines[i];
    }
    forall k ensures Lists(all, k) <==> Lists(lines, k) || k == name { ListsMore(lines, raw, k); }
  }

  // Reading ends well exactly if every line fits what came before it.
  lemma {:induction false} ReadsExactly(digest: string -> string, entries: Entries, lines: seq<string>)
    ensures ReadAll(digest, entries, lines).Ok? <==> forall i :: 0 <= i < |lines| ==> LineFits(digest, entries, lines, i)
    ensures ReadAll(digest, entries, lines).Ok? ==> Reflects(lines, ReadAll(digest, entries, lines).value)
  {
    hide HeaderSays, EntrySays, Stripped, ReadHeader, ReadEntry, StartsWith, Reflects, HeaderFits, EntryFits;
    if lines == [] {
      NothingRead();
    } else {
      var last := |lines| - 1;
      var before, raw := lines[..last], lines[last];
      assert lines == before + [raw];
      ReadsExactly(digest, entries, before);
      forall i | 0 <= i < last ensures LineFits(digest, entries, lines, i) <==> LineFits(digest, entries, before, i) {
        FitsBefore(digest, entries, before, lines, i);
      }
      if ReadAll(digest, entries, before).Ok? {
        LineRead(digest, entries, lines, ReadAll(digest, entries, before).value);
      }
    }
  }

  lemma {:induction false} NothingRead()
    ensures Reflects([], Parsed(map[], map[]))
  {
  }

  lemma {:induction false} FitsBefore(digest: string -> string, entries: Entries, before: seq<string>, lines: seq<string>, i: nat)
    requires i < |before| < |lines| && before == lines[..|before|]
    ensures LineFits(digest, entries, lines, i) <==> LineFits(digest, entries, before, i)
  {
    assert lines[..i] == before[..i] && lines[i] == before[i];
  }

  lemma {:induction false} LineRead(digest: string -> string, entries: Entries, lines: seq<string>, p: Parsed)
    requires lines != [] && Reflects(lines[..|lines| - 1], p)
    ensures var read := ReadLine(digest, entries, p, lines[|lines| - 1]);
      (read.Ok? <==> LineFits(digest, entries, lines, |lines| - 1)) && (read.Ok? ==> Reflects(lines, read.value))
  {
    hide Reflects, Hex, Safe, Lists, NoValue, ReadHeader, ReadEntry;
    var before, raw := lines[..|lines| - 1], lines[|lines| - 1];
    assert lines == before + [raw];
    if StartsWith(Stripped(raw), '#') {
      HeaderRead(before, raw, p);
      assert forall name, sum :: !EntrySays(raw, name, sum);
    } else {
      EntryRead(digest, entries, before, raw, p);
      assert forall key, value :: !HeaderSays(raw, key, value);
    }
  }

  // THEOREM (acceptance). An inventory is accepted exactly if every line is short enough and
  // either gives a value to a key without one, or lists another entry that no earlier line
  // lists with its digest; the four keys have their values; and every other entry is listed.
  lemma {:induction false} AcceptedExactly(digest: string -> string, entries: Entries)
    ensures Validate(digest, entries).Ok? <==>
      && "package_inventory.csv" in entries
      && var lines := Lines(entries["package_inventory.csv"]);
         && (forall i :: 0 <= i < |lines| ==> LineFits(digest, entries, lines, i))
         && Given(lines, "build", "x_664635_topo") && Given(lines, "appVersion", "0.4.7")
         && Given(lines, "type", "scoped") && Given(lines, "version", "1.0.0")
         && forall name :: name in entries && name != "package_inventory.csv" ==> Lists(lines, name)
  {
    hide ReadAll, HeaderSays, EntrySays, LineFits, Lines;
    if INVENTORY_NAME in entries {
      var lines := Lines(entries[INVENTORY_NAME]);
      ReadsExactly(digest, entries, lines);
      var read := ReadAll(digest, entries, lines);
      if read.Ok? {
        HeadersGiven(lines, read.value);
        LinesFree(entries[INVENTORY_NAME]);
        ReadAllListed(digest, entries, lines);
        var listed := read.value.listed;
        var others := entries.Keys - {INVENTORY_NAME};
        assert listed.Keys <= others;
        assert |listed.Keys| == |listed| && |entries.Keys| == |entries|;
        assert |listed| == |entries| - 1 <==> listed.Keys == others by {
          if |listed| == |entries| - 1 { SubsetOfSameSize(listed.Keys, others); }
        }
      }
    }
  }

  lemma {:induction false} HeadersGiven(lines: seq<string>, p: Parsed)
    requires Reflects(lines, p)
    ensures HeadersRight(p.headers) <==>
      && Given(lines, "build", "x_664635_topo") && Given(lines, "appVersion", "0.4.7")
      && Given(lines, "type", "scoped") && Given(lines, "version", "1.0.0")
  {
    hide HeaderSays, Lists;
    assert WANTED_HEADERS[0] == "build" && WANTED_HEADERS[1] == "appVersion";
    assert WANTED_HEADERS[2] == "type" && WANTED_HEADERS[3] == "version";
    forall i | 0 <= i < 4
      ensures var key, value := WANTED_HEADERS[i], WANTED_VALUES[i];
        key in p.headers && p.headers[key] == value <==> Given(lines, key, value)
    {
    }
  }
}
