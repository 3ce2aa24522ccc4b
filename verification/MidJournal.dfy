// The MID crash journal (internal/mid/state.go): an append-only file of one line per entry.
//
// Journal is what the file means after any appends, whole or torn at any byte. The bytes are
// related to it by Meaning, for every line encoding of which no proper beginning can be read
// back, nor two or more beginnings one after the other. Both are true of JSON objects, which
// open with a brace and a quote; the decoder may skip leading blanks, as Go's does.
module MidJournal {
  import opened Wrappers

  const MAX_JOURNAL_BYTES := 0x80_0000
  const MAX_RECORD_BYTES := 0x20_0000

  datatype Codec<!E> = Codec(encode: E -> string, decode: string -> Option<E>, valid: E -> bool)

  // The unterminated end of the file: nothing, unreadable bytes, or a whole entry that lacks
  // only its newline.
  datatype Tail<E> = NoTail | Torn | Whole(entry: E)

  // The file is missing, or holds a last complete line (if any), a tail, and perhaps a line
  // that cannot be read.
  datatype Journal<E> = Absent | File(complete: Option<E>, tail: Tail<E>, broken: bool)

  datatype Loaded<E> = Nothing | Unreadable | Entry(entry: E)

  function LoadOf<E>(j: Journal<E>): Loaded<E> {
    match j
    case Absent => Nothing
    case File(complete, tail, broken) =>
      if broken then Unreadable
      else if tail.Whole? then Entry(tail.entry)
      else if complete.Some? then Entry(complete.value)
      else Unreadable
  }

  // How much of an append reached the file. A failure before the file was opened leaves it alone.
  datatype Cut = NotOpened | Nowhere | Partway | AllButNewline | All

  function Append<E>(j: Journal<E>, e: E, cut: Cut): Journal<E> {
    if cut == NotOpened then j
    else
      var f := if j.Absent? then File(None, NoTail, false) else j;
      if f.broken || cut == Nowhere then f
      else if f.tail.NoTail? then
        if cut == Partway then f.(tail := Torn)
        else if cut == AllButNewline then f.(tail := Whole(e))
        else f.(complete := Some(e))
      else if cut == All then File(f.complete, NoTail, true)
      else f.(tail := Torn)
  }

  // ----- the bytes

  function NewlineAt(s: string): (n: nat)
    ensures n <= |s| && (n < |s| ==> s[n] == '\n') && forall i :: 0 <= i < n ==> s[i] != '\n'
  {
    if s == "" || s[0] == '\n' then 0 else 1 + NewlineAt(s[1..])
  }

  function Scan<E>(c: Codec<E>, s: string, last: Option<E>): Journal<E>
    decreases |s|
  {
    if s == "" then File(last, NoTail, false)
    else
      var n := NewlineAt(s);
      var line := c.decode(s[..n]);
      if n < |s| then
        if line.None? || !c.valid(line.value) then File(last, NoTail, true) else Scan(c, s[n + 1..], line)
      else if line.None? then File(last, Torn, false)
      else if !c.valid(line.value) then File(last, NoTail, true)
      else File(last, Whole(line.value), false)
  }

  function Meaning<E>(c: Codec<E>, file: Option<string>): Journal<E> {
    if file.None? then Absent else Scan(c, file.value, None)
  }

  ghost predicate LineCodec<E(!new)>(c: Codec<E>) {
    && (forall e :: c.decode(c.encode(e)) == Some(e) && |c.encode(e)| >= 2 && '\n' !in c.encode(e))
    && (forall e, k :: 0 <= k < |c.encode(e)| ==> c.decode(c.encode(e)[..k]) == None)
  }

  // What appends can leave on one line: beginnings of encodings, one after the other.
  type Pieces<!E> = seq<(E, nat)>

  ghost predicate ArePieces<E(!new)>(c: Codec<E>, ps: Pieces<E>) {
    forall p :: p in ps ==> 0 < p.1 <= |c.encode(p.0)|
  }

  ghost function Joined<E(!new)>(c: Codec<E>, ps: Pieces<E>): string
    requires ArePieces(c, ps)
  {
    if ps == [] then "" else Joined(c, ps[..|ps| - 1]) + c.encode(ps[|ps| - 1].0)[..ps[|ps| - 1].1]
  }

  // Two or more beginnings cannot be read as an entry.
  ghost predicate NoGluing<E(!new)>(c: Codec<E>) {
    forall ps: Pieces<E> :: |ps| >= 2 && ArePieces(c, ps) ==> c.decode(Joined(c, ps)) == None
  }

  // The bytes that an append writes, cut short or not.
  function Written<E>(c: Codec<E>, e: E, k: nat): string
    requires k <= |c.encode(e)| + 1
  {
    (c.encode(e) + "\n")[..k]
  }

  function CutAt<E>(c: Codec<E>, e: E, k: nat): Cut
    requires k <= |c.encode(e)| + 1
  {
    if k == 0 then Nowhere else if k < |c.encode(e)| then Partway else if k == |c.encode(e)| then AllButNewline else All
  }

  lemma {:induction false} NewlineOf(s: string, rest: string)
    requires '\n' !in s
    ensures NewlineAt(s) == |s| && NewlineAt(s + "\n" + rest) == |s|
  {
    assert (s + "\n" + rest)[|s|] == '\n';
    assert forall i :: 0 <= i < |s| ==> (s + "\n" + rest)[i] == s[i] && s[i] in s;
  }

  lemma {:induction false} NewlinePrefix(s: string, w: string)
    requires NewlineAt(s) < |s|
    ensures NewlineAt(s + w) == NewlineAt(s)
  {
    if s[0] != '\n' {
      assert (s + w)[1..] == s[1..] + w;
      NewlinePrefix(s[1..], w);
    }
  }

  // The unterminated part of a file.
  function LastLine(s: string): string
    decreases |s|
  {
    var n := NewlineAt(s);
    if n < |s| then LastLine(s[n + 1..]) else s
  }

  // An unterminated line left by appends.
  ghost predicate TidyLine<E(!new)>(c: Codec<E>, s: string) {
    && (exists ps: Pieces<E> :: ArePieces(c, ps) && s == Joined(c, ps))
    && (s != "" && c.decode(s).Some? ==> c.valid(c.decode(s).value))
  }

  lemma {:induction false} OnePiece<E(!new)>(c: Codec<E>, e: E, k: nat)
    requires LineCodec(c) && c.valid(e) && 0 < k <= |c.encode(e)|
    ensures TidyLine(c, c.encode(e)[..k])
  {
    var ps: Pieces<E> := [(e, k)];
    assert ArePieces(c, ps) && ps[..0] == [];
    assert Joined(c, ps) == "" + c.encode(e)[..k] == c.encode(e)[..k];
    if k == |c.encode(e)| { assert c.encode(e)[..k] == c.encode(e); }
  }

  lemma {:induction false} NoPieces<E(!new)>(c: Codec<E>)
    ensures TidyLine(c, "")
  {
    var ps: Pieces<E> := [];
    assert ArePieces(c, ps) && Joined(c, ps) == "";
  }

  ghost predicate Tidy<E(!new)>(c: Codec<E>, s: string) {
    TidyLine(c, LastLine(s))
  }

  // A journal is broken, or it says what its last line says, or else what the line before said.
  function LineMeaning<E>(c: Codec<E>, s: string, last: Option<E>): Journal<E> {
    if s == "" then File(last, NoTail, false)
    else if c.decode(s).None? then File(last, Torn, false)
    else if c.valid(c.decode(s).value) then File(last, Whole(c.decode(s).value), false)
    else File(last, NoTail, true)
  }

  lemma {:induction false} ScanLine<E>(c: Codec<E>, s: string, last: Option<E>)
    requires '\n' !in s
    ensures Scan(c, s, last) == LineMeaning(c, s, last)
    ensures LastLine(s) == s
  {
    NewlineOf(s, "");
    assert s[..|s|] == s;
  }

  lemma {:induction false} ScanTerminated<E>(c: Codec<E>, s: string, last: Option<E>)
    requires '\n' !in s
    ensures Scan(c, s + "\n", last) ==
      if c.decode(s).Some? && c.valid(c.decode(s).value) then File(c.decode(s), NoTail, false) else File(last, NoTail, true)
    ensures LastLine(s + "\n") == ""
  {
    NewlineOf(s, "");
    assert s + "\n" + "" == s + "\n";
    assert (s + "\n")[..|s|] == s && (s + "\n")[|s| + 1..] == "";
    assert NewlineAt("") == 0;
  }

  // Writing to a fresh line.
  lemma {:induction false} WriteFresh<E(!new)>(c: Codec<E>, last: Option<E>, e: E, k: nat)
    requires LineCodec(c) && c.valid(e) && 0 < k <= |c.encode(e)| + 1
    ensures Scan(c, Written(c, e, k), last) == Append(File(last, NoTail, false), e, CutAt(c, e, k))
    ensures Tidy(c, Written(c, e, k))
  {
    var w, enc := Written(c, e, k), c.encode(e);
    if k <= |enc| {
      assert w == enc[..k] && '\n' !in w;
      if k == |enc| { assert w == enc; }
      ScanLine(c, w, last);
      OnePiece(c, e, k);
    } else {
      assert w == enc + "\n";
      ScanTerminated(c, enc, last);
      NoPieces(c);
    }
  }

  lemma {:induction false} Unglued<E(!new)>(c: Codec<E>, s: string, e: E, k: nat)
    requires NoGluing(c) && TidyLine(c, s) && s != "" && 0 < k <= |c.encode(e)|
    ensures c.decode(s + c.encode(e)[..k]) == None && TidyLine(c, s + c.encode(e)[..k])
  {
    var ps: Pieces<E> :| ArePieces(c, ps) && s == Joined(c, ps);
    var more := ps + [(e, k)];
    assert ArePieces(c, more) && more[..|more| - 1] == ps;
    assert Joined(c, more) == s + c.encode(e)[..k];
  }

  lemma {:induction false} TidyReads<E(!new)>(c: Codec<E>, s: string, last: Option<E>)
    requires TidyLine(c, s) && s != ""
    ensures LineMeaning(c, s, last).File? && !LineMeaning(c, s, last).broken && !LineMeaning(c, s, last).tail.NoTail?
    ensures LineMeaning(c, s, last).complete == last
  {
    hide ArePieces, Joined;
  }

  // Writing onto an unterminated line glues the two, which cannot be read.
  lemma {:induction false} WriteGlued<E(!new)>(c: Codec<E>, s: string, last: Option<E>, e: E, k: nat)
    requires LineCodec(c) && NoGluing(c) && c.valid(e) && 0 < k <= |c.encode(e)| + 1
    requires s != "" && '\n' !in s && TidyLine(c, s)
    ensures Scan(c, s + Written(c, e, k), last) == Append(LineMeaning(c, s, last), e, CutAt(c, e, k))
    ensures Tidy(c, s + Written(c, e, k))
  {
    var enc := c.encode(e);
    assert '\n' !in enc;
    hide LineCodec, NoGluing, TidyLine, Scan, LastLine, LineMeaning, Append, Written;
    TidyReads(c, s, last);
    AppendGlued(c, LineMeaning(c, s, last), e, k);
    WrittenSplits(c, e, k);
    if k <= |enc| {
      Unglued(c, s, e, k);
      assert '\n' !in s + enc[..k];
      GluedPart(c, s + enc[..k], last);
    } else {
      assert enc[..|enc|] == enc;
      Unglued(c, s, e, |enc|);
      assert s + (enc + "\n") == (s + enc) + "\n";
      GluedWhole(c, s + enc, last);
    }
  }

  lemma {:induction false} AppendGlued<E>(c: Codec<E>, j: Journal<E>, e: E, k: nat)
    requires j.File? && !j.broken && !j.tail.NoTail? && 0 < k <= |c.encode(e)| + 1
    ensures Append(j, e, CutAt(c, e, k)) == if k <= |c.encode(e)| then j.(tail := Torn) else File(j.complete, NoTail, true)
  {
  }

  lemma {:induction false} WrittenSplits<E>(c: Codec<E>, e: E, k: nat)
    requires k <= |c.encode(e)| + 1
    ensures Written(c, e, k) == if k <= |c.encode(e)| then c.encode(e)[..k] else c.encode(e) + "\n"
  {
  }

  lemma {:induction false} GluedPart<E(!new)>(c: Codec<E>, s: string, last: Option<E>)
    requires s != "" && '\n' !in s && c.decode(s) == None && TidyLine(c, s)
    ensures Scan(c, s, last) == File(last, Torn, false) && Tidy(c, s)
  {
    hide TidyLine;
    ScanLine(c, s, last);
  }

  lemma {:induction false} GluedWhole<E(!new)>(c: Codec<E>, s: string, last: Option<E>)
    requires '\n' !in s && c.decode(s) == None
    ensures Scan(c, s + "\n", last) == File(last, NoTail, true) && Tidy(c, s + "\n")
  {
    hide TidyLine;
    ScanTerminated(c, s, last);
    NoPieces(c);
  }

  // Appending to a file appends to what it means.
  lemma {:induction false} ScanAppend<E(!new)>(c: Codec<E>, s: string, last: Option<E>, e: E, k: nat)
    requires LineCodec(c) && NoGluing(c) && Tidy(c, s) && c.valid(e) && k <= |c.encode(e)| + 1
    ensures Scan(c, s + Written(c, e, k), last) == Append(Scan(c, s, last), e, CutAt(c, e, k))
    ensures Tidy(c, s + Written(c, e, k))
    decreases |s|
  {
    hide LineCodec, NoGluing, CutAt, Append, Written, TidyLine;
    var n, w := NewlineAt(s), Written(c, e, k);
    if n < |s| {
      NewlinePrefix(s, w);
      assert (s + w)[..n] == s[..n] && (s + w)[n + 1..] == s[n + 1..] + w;
      var line := c.decode(s[..n]);
      ScanAppend(c, s[n + 1..], line, e, k);
      BrokenAppend(File(last, NoTail, true), e, CutAt(c, e, k));
    } else if k == 0 {
      WriteNothing(c, Scan(c, s, last), e);
      assert s + w == s;
    } else {
      assert '\n' !in s;
      ScanLine(c, s, last);
      if s == "" {
        assert s + w == w;
        WriteFresh(c, last, e, k);
      } else {
        WriteGlued(c, s, last, e, k);
      }
    }
  }

  lemma {:induction false} BrokenAppend<E>(j: Journal<E>, e: E, cut: Cut)
    requires j.File? && j.broken
    ensures Append(j, e, cut) == j
  {
  }

  lemma {:induction false} WriteNothing<E>(c: Codec<E>, j: Journal<E>, e: E)
    requires j.File?
    ensures Written(c, e, 0) == "" && Append(j, e, CutAt(c, e, 0)) == j
  {
  }

  // THEOREM. The bytes of any series of whole and torn appends mean what those appends mean.
  lemma {:induction false} AppendMeaning<E(!new)>(c: Codec<E>, file: Option<string>, e: E, k: nat)
    requires LineCodec(c) && NoGluing(c) && (file.Some? ==> Tidy(c, file.value)) && c.valid(e) && k <= |c.encode(e)| + 1
    ensures var s := if file.Some? then file.value else "";
      && Meaning(c, Some(s + Written(c, e, k))) == Append(Meaning(c, file), e, CutAt(c, e, k))
      && Tidy(c, s + Written(c, e, k))
  {
    hide LineCodec, NoGluing, Written;
    assert Scan(c, "", None) == File(None, NoTail, false) && LastLine("") == "";
    NoPieces(c);
    assert Tidy(c, "");
    ScanAppend(c, if file.Some? then file.value else "", None, e, k);
  }

  // ----- recovery

  function AllLines<E>(c: Codec<E>, es: seq<E>): string {
    if es == [] then "" else AllLines(c, es[..|es| - 1]) + c.encode(es[|es| - 1]) + "\n"
  }

  lemma {:induction false} WholeAppend<E(!new)>(c: Codec<E>, e: E)
    requires LineCodec(c)
    ensures CutAt(c, e, |c.encode(e)| + 1) == All && Written(c, e, |c.encode(e)| + 1) == c.encode(e) + "\n"
  {
  }

  lemma {:induction false} WholeMeaning<E(!new)>(c: Codec<E>, file: Option<string>, e: E)
    requires LineCodec(c) && NoGluing(c) && (file.Some? ==> Tidy(c, file.value)) && c.valid(e)
    ensures var s := (if file.Some? then file.value else "") + c.encode(e) + "\n";
      Meaning(c, Some(s)) == Append(Meaning(c, file), e, All) && Tidy(c, s)
  {
    hide LineCodec, NoGluing, Tidy, CutAt, Written, Append, Scan;
    WholeAppend(c, e);
    var s := if file.Some? then file.value else "";
    assert s + (c.encode(e) + "\n") == s + c.encode(e) + "\n";
    AppendMeaning(c, file, e, |c.encode(e)| + 1);
  }

  lemma {:induction false} NoLines<E(!new)>(c: Codec<E>)
    ensures AllLines(c, []) == "" && Tidy(c, "") && Meaning(c, Some("")) == File(None, NoTail, false)
  {
    assert LastLine("") == "";
    NoPieces(c);
  }

  lemma {:induction false} LastOfLines<E>(c: Codec<E>, es: seq<E>)
    requires es != []
    ensures AllLines(c, es) == AllLines(c, es[..|es| - 1]) + c.encode(es[|es| - 1]) + "\n"
  {
  }

  lemma {:induction false} LinesMeaning<E(!new)>(c: Codec<E>, es: seq<E>)
    requires LineCodec(c) && NoGluing(c) && forall e :: e in es ==> c.valid(e)
    ensures Tidy(c, AllLines(c, es))
    ensures Meaning(c, Some(AllLines(c, es))) == File(if es == [] then None else Some(es[|es| - 1]), NoTail, false)
  {
    hide LineCodec, NoGluing, Tidy, Meaning, AllLines;
    if es == [] {
      NoLines(c);
    } else {
      var before, e := es[..|es| - 1], es[|es| - 1];
      LastOfLines(c, es);
      LinesMeaning(c, before);
      WholeMeaning(c, Some(AllLines(c, before)), e);
    }
  }

  lemma {:induction false} TornOutcome<E>(c: Codec<E>, last: Option<E>, x: E, k: nat)
    requires k <= |c.encode(x)| && c.encode(x) != ""
    ensures LoadOf(Append(File(last, NoTail, false), x, CutAt(c, x, k))) ==
      if k == |c.encode(x)| then Entry(x) else if last.Some? then Entry(last.value) else Unreadable
  {
  }

  // THEOREM (recovery). After whole appends of es and an append of x torn after k of its bytes,
  // loading returns x if only the newline is missing, else the last of es, else an error.
  lemma {:induction false} Recovery<E(!new)>(c: Codec<E>, es: seq<E>, x: E, k: nat)
    requires LineCodec(c) && NoGluing(c) && c.valid(x) && k <= |c.encode(x)|
    requires forall e :: e in es ==> c.valid(e)
    ensures LoadOf(Meaning(c, Some(AllLines(c, es) + Written(c, x, k)))) ==
      if k == |c.encode(x)| then Entry(x) else if es != [] then Entry(es[|es| - 1]) else Unreadable
  {
    assert c.encode(x) != "";
    hide LineCodec, NoGluing, Tidy, Meaning, AllLines, Written, LoadOf, Append, CutAt;
    LinesMeaning(c, es);
    AppendMeaning(c, Some(AllLines(c, es)), x, k);
    TornOutcome(c, if es == [] then None else Some(es[|es| - 1]), x, k);
  }

  // THEOREM (appending, exactly). A whole append can be loaded back exactly if the file is
  // missing, or has no torn end and no broken line; otherwise no later append helps.
  lemma {:induction false} AppendExactly<E>(j: Journal<E>, e: E)
    ensures LoadOf(Append(j, e, All)) == Entry(e) <==> j.Absent? || (j.tail.NoTail? && !j.broken)
    ensures j.File? && (j.broken || !j.tail.NoTail?) ==>
      LoadOf(Append(j, e, All)) == Unreadable && forall later, cut :: LoadOf(Append(Append(j, e, All), later, cut)) == Unreadable
  {
  }

  // What loading a file returns; oversized files are refused.
  function Loading<E>(c: Codec<E>, file: Option<string>): Loaded<E> {
    if file.Some? && |file.value| > MAX_JOURNAL_BYTES then Unreadable else LoadOf(Meaning(c, file))
  }

  predicate Terminated(s: string) { s == "" || s[|s| - 1] == '\n' }

  // Of a file that can be read so far, the end is whole exactly if it is terminated.
  lemma {:induction false} TerminatedTail<E>(c: Codec<E>, s: string, last: Option<E>)
    ensures var j := Scan(c, s, last);
      j.File? && (j.broken || ((j.tail.NoTail? <==> Terminated(s)) && (s != "" && Terminated(s) ==> j.complete.Some?)))
    decreases |s|
  {
    var n := NewlineAt(s);
    hide NewlineAt;
    if s != "" && n < |s| {
      TerminatedTail(c, s[n + 1..], c.decode(s[..n]));
      if n + 1 < |s| { assert s[n + 1..][|s[n + 1..]| - 1] == s[|s| - 1]; } else { assert s[n + 1..] == ""; }
    }
  }

  // THEOREM (appending to bytes, exactly). Of a file that appends can leave, a whole append is
  // loaded back exactly if the result is not oversized and the file was missing, or empty, or
  // could be loaded and ended in a newline. If it could not be, nothing can be loaded.
  lemma {:induction false} AppendLoadsExactly<E(!new)>(c: Codec<E>, file: Option<string>, e: E)
    requires LineCodec(c) && NoGluing(c) && (file.Some? ==> Tidy(c, file.value)) && c.valid(e)
    ensures var s := if file.Some? then file.value else "";
      var file' := Some(s + c.encode(e) + "\n");
      && (Loading(c, file') == Entry(e) <==>
            |file'.value| <= MAX_JOURNAL_BYTES && (s == "" || (Terminated(s) && Loading(c, file).Entry?)))
      && (Loading(c, file') == Entry(e) || Loading(c, file') == Unreadable)
  {
    hide LineCodec, NoGluing, Tidy, Append;
    var s := if file.Some? then file.value else "";
    WholeMeaning(c, file, e);
    AppendExactly(Meaning(c, file), e);
    TerminatedTail(c, s, None);
  }

  // The assumptions on encodings can be met: brackets around bracket-free text, read by a
  // decoder that skips leading blanks.
  function BracketCodec(): Codec<Word> {
    Codec((e: Word) => "{" + e + "}", (s: string) => Unbracket(SkipBlanks(s)), (e: Word) => true)
  }

  predicate Plain(s: string) { '{' !in s && '}' !in s && '\n' !in s }
  type Word = s: string | Plain(s) witness ""

  function SkipBlanks(s: string): string { if s != "" && s[0] in " \t\r\n" then SkipBlanks(s[1..]) else s }

  function Unbracket(s: string): Option<Word> {
    if |s| >= 2 && s[0] == '{' && s[|s| - 1] == '}' && Plain(s[1..|s| - 1]) then Some(s[1..|s| - 1]) else None
  }

  lemma {:induction false} BracketPieces(ps: Pieces<Word>)
    requires ArePieces(BracketCodec(), ps) && ps != []
    ensures var s := Joined(BracketCodec(), ps); s != "" && s[0] == '{' && (|ps| >= 2 ==> exists i :: 1 <= i < |s| && s[i] == '{')
  {
    var c := BracketCodec();
    var before, last := ps[..|ps| - 1], ps[|ps| - 1];
    assert last in ps && c.encode(last.0)[..last.1][0] == '{';
    var s := Joined(c, ps);
    assert ArePieces(c, before) && s == Joined(c, before) + c.encode(last.0)[..last.1];
    if before == [] {
      assert s == c.encode(last.0)[..last.1];
    } else {
      BracketPieces(before);
      assert s[|Joined(c, before)|] == '{';
    }
  }

  // A second bracket makes a text unreadable.
  lemma {:induction false} TwoBrackets(s: string, i: nat)
    requires 1 <= i < |s| && s[0] == '{' && s[i] == '{'
    ensures Unbracket(SkipBlanks(s)) == None
  {
    assert SkipBlanks(s) == s;
    if i < |s| - 1 {
      assert s[1..|s| - 1][i - 1] == '{';
    }
  }

  lemma {:induction false} BracketRead(e: Word, k: nat)
    requires k <= |e| + 2
    ensures '\n' !in "{" + e + "}"
    ensures Unbracket(SkipBlanks(("{" + e + "}")[..k])) == if k == |e| + 2 then Some(e) else None
    ensures Unbracket(SkipBlanks(" " + ("{" + e + "}"))) == Some(e)
  {
    var s := "{" + e + "}";
    assert (" " + s)[1..] == s && s[..|s|] == s;
    assert s[1..|e| + 1] == e;
    if 2 <= k < |e| + 2 { assert s[..k][k - 1] == e[k - 2] && e[k - 2] in e; }
  }

  lemma {:induction false} BracketCodecWorks()
    ensures LineCodec(BracketCodec()) && NoGluing(BracketCodec())
    ensures forall e: Word :: BracketCodec().decode(" " + BracketCodec().encode(e)) == Some(e)
  {
    hide Unbracket, SkipBlanks, Joined;
    var c := BracketCodec();
    forall e: Word
      ensures c.decode(c.encode(e)) == Some(e) && '\n' !in c.encode(e) && c.decode(" " + c.encode(e)) == Some(e)
    {
      BracketRead(e, |e| + 2);
      assert c.encode(e)[..|e| + 2] == c.encode(e);
    }
    forall e: Word, k | 0 <= k < |c.encode(e)| ensures c.decode(c.encode(e)[..k]) == None {
      BracketRead(e, k);
    }
    forall ps: Pieces<Word> | |ps| >= 2 && ArePieces(c, ps) ensures c.decode(Joined(c, ps)) == None {
      BracketPieces(ps);
      var i :| 1 <= i < |Joined(c, ps)| && Joined(c, ps)[i] == '{';
      TwoBrackets(Joined(c, ps), i);
    }
  }

  // ----- the file as the source keeps it

  predicate Fits<E>(c: Codec<E>, e: E) { c.valid(e) && |c.encode(e)| + 1 <= MAX_RECORD_BYTES }

  class State<E(!new)> {
    const codec: Codec<E>
    var file: Option<string>

    constructor (codec: Codec<E>)
      ensures this.codec == codec && file == None
    {
      this.codec := codec;
      file := None;
    }

    ghost predicate Valid()
      reads this
    {
      LineCodec(codec) && NoGluing(codec) && (file.Some? ==> Tidy(codec, file.value))
    }

    // Save appends a line; a crash may cut the write after any number of bytes. An invalid or
    // oversized entry is refused.
    method Save(e: E, written: nat) returns (ok: bool)
      requires Valid() && written <= |codec.encode(e)| + 1
      modifies this
      ensures Valid()
      ensures !codec.valid(e) || |codec.encode(e)| + 1 > 2097152 ==> !ok && file == old(file)
      ensures codec.valid(e) && |codec.encode(e)| + 1 <= 2097152 ==>
        && file == Some((if old(file).None? then "" else old(file).value) + (codec.encode(e) + "\n")[..written])
        && (ok <==> written == |codec.encode(e)| + 1)
      ensures !Fits(codec, e) ==> !ok && file == old(file)
      ensures Fits(codec, e) ==> Meaning(codec, file) == Append(old(Meaning(codec, file)), e, CutAt(codec, e, written))
      ensures Fits(codec, e) ==> (ok <==> CutAt(codec, e, written) == All)
    {
      if !Fits(codec, e) {
        return false;
      }
      AppendMeaning(codec, file, e, written);
      assert codec.encode(e) != "";
      var content := if file.None? then "" else file.value;
      file := Some(content + Written(codec, e, written));
      ok := written == |codec.encode(e)| + 1;
    }

    method Clear()
      requires Valid()
      modifies this
      ensures Valid() && Meaning(codec, file) == Absent
    {
      file := None;
    }

    // Load reads line by line, remembering the last entry; it gives up on a line it cannot
    // read unless that line is the unterminated end of the file.
    method Load() returns (r: Loaded<E>)
      ensures r == Loading(codec, file)
      ensures r == if file.Some? && |file.value| > 8388608 then Unreadable else LoadOf(Meaning(codec, file))
    {
      if file.None? {
        return Nothing;
      }
      if |file.value| > MAX_JOURNAL_BYTES {
        return Unreadable;
      }
      var rest := file.value;
      var last: Option<E> := None;
      while rest != ""
        invariant Scan(codec, rest, last) == Meaning(codec, file)
        decreases |rest|
      {
        var n := NewlineAt(rest);
        var line := codec.decode(rest[..n]);
        if line.None? {
          if n == |rest| {
            break;
          }
          return Unreadable;
        }
        if !codec.valid(line.value) {
          return Unreadable;
        }
        last := line;
        if n == |rest| {
          return Entry(line.value);
        }
        rest := rest[n + 1..];
      }
      r := if last.None? then Unreadable else Entry(last.value);
    }
  }
}
