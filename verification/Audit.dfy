// The hash-chained audit log (internal/audit/audit.go; appends in internal/store/store.go).
//
// SHA-256 is any function to 64 hexadecimal digits: the theorems say that logs agree or that two
// texts hashed for them, in the same place from the end, collide. A time is its RFC 3339 text.
module Audit {
  import opened Wrappers
  import opened Sorting

  datatype Event = Event(action: string, actor: string, detail: map<string, string>)

  datatype Entry = Entry(sequence: nat, recordedAt: string, event: Event, prevHash: string, hash: string)

  const NUL: char := '\0'

  predicate Free(s: string, c: char) { c !in s }

  // ----- decimal numbers

  const DIGITS := "0123456789"

  function Decimal(n: nat): string {
    if n < 10 then [DIGITS[n]] else Decimal(n / 10) + [DIGITS[n % 10]]
  }

  lemma {:induction false} DecimalClean(n: nat)
    ensures Decimal(n) != "" && Free(Decimal(n), NUL)
  {
    if n >= 10 { DecimalClean(n / 10); }
  }

  lemma {:induction false} DigitsDiffer(i: nat, j: nat)
    requires i < 10 && j < 10 && DIGITS[i] == DIGITS[j]
    ensures i == j
  {
  }

  lemma {:induction false} DecimalInjective(m: nat, n: nat)
    requires Decimal(m) == Decimal(n)
    ensures m == n
  {
    var s := Decimal(m);
    assert s[|s| - 1] == DIGITS[m % 10] == DIGITS[n % 10];
    DigitsDiffer(m % 10, n % 10);
    if m >= 10 && n >= 10 {
      assert s[..|s| - 1] == Decimal(m / 10) == Decimal(n / 10);
      DecimalInjective(m / 10, n / 10);
    } else if m >= 10 {
      DecimalClean(m / 10);
    } else if n >= 10 {
      DecimalClean(n / 10);
    }
  }

  // ----- the encoding

  ghost function DetailFields(detail: map<string, string>, keys: seq<string>): seq<string>
    requires forall k :: k in keys ==> k in detail
  {
    if keys == [] then [] else DetailFields(detail, keys[..|keys| - 1]) + [keys[|keys| - 1] + "=" + detail[keys[|keys| - 1]]]
  }

  // Every field followed by NUL.
  ghost function Terminated(fields: seq<string>): string {
    if fields == [] then "" else fields[0] + [NUL] + Terminated(fields[1..])
  }

  ghost function Details(detail: map<string, string>): seq<string> {
    InOrderCorrect(detail.Keys);
    DetailFields(detail, InOrder(detail.Keys))
  }

  ghost function Encoding(e: Entry): string {
    Terminated([Decimal(e.sequence), e.recordedAt, e.event.action, e.event.actor] + Details(e.event.detail)) + e.prevHash
  }

  predicate HexDigit(c: char) { '0' <= c <= '9' || 'a' <= c <= 'f' }

  ghost predicate HexHash(hash: string -> string) {
    forall s :: |hash(s)| == 64 && forall i :: 0 <= i < 64 ==> HexDigit(hash(s)[i])
  }

  lemma {:induction false} HexFree(hash: string -> string, s: string)
    requires HexHash(hash)
    ensures Free(hash(s), NUL) && hash(s) != ""
  {
    assert |hash(s)| == 64;
    assert forall i :: 0 <= i < |hash(s)| ==> HexDigit(hash(s)[i]);
  }

  ghost predicate CleanEvent(e: Event) {
    && Free(e.action, NUL) && Free(e.actor, NUL)
    && forall k :: k in e.detail ==> Free(k, NUL) && Free(k, '=') && Free(e.detail[k], NUL)
  }

  // ----- cutting strings at a separator

  lemma {:induction false} CutFirst(c: char, s: string, r: string, t: string, u: string)
    requires Free(s, c) && Free(t, c) && s + [c] + r == t + [c] + u
    ensures s == t && r == u
  {
    var w := s + [c] + r;
    assert w[|s|] == c && w[|t|] == c;
    assert forall i :: 0 <= i < |s| ==> w[i] == s[i] && s[i] in s;
    assert forall i :: 0 <= i < |t| ==> w[i] == t[i] && t[i] in t;
    assert |s| == |t|;
    assert s == w[..|s|] == t && r == w[|s| + 1..] == u;
  }

  lemma {:induction false} TerminatedInjective(a: seq<string>, x: string, b: seq<string>, y: string)
    requires (forall f :: f in a ==> Free(f, NUL)) && (forall f :: f in b ==> Free(f, NUL)) && Free(x, NUL) && Free(y, NUL)
    requires Terminated(a) + x == Terminated(b) + y
    ensures a == b && x == y
  {
    StartsWithField(a, x);
    StartsWithField(b, y);
    if a != [] && b != [] {
      CutFirst(NUL, a[0], Terminated(a[1..]) + x, b[0], Terminated(b[1..]) + y);
      TerminatedInjective(a[1..], x, b[1..], y);
      assert a == [a[0]] + a[1..] && b == [b[0]] + b[1..];
    }
  }

  lemma {:induction false} StartsWithField(a: seq<string>, x: string)
    ensures a == [] ==> Terminated(a) + x == x
    ensures a != [] ==> Terminated(a) + x == a[0] + [NUL] + (Terminated(a[1..]) + x) && NUL in Terminated(a) + x
  {
    if a != [] {
      assert (Terminated(a) + x)[|a[0]|] == NUL;
    }
  }

  // ----- details

  lemma {:induction false} FieldsClean(detail: map<string, string>, keys: seq<string>)
    requires forall k :: k in keys ==> k in detail && Free(k, NUL) && Free(detail[k], NUL)
    ensures |DetailFields(detail, keys)| == |keys|
    ensures forall f :: f in DetailFields(detail, keys) ==> Free(f, NUL)
    ensures forall i :: 0 <= i < |keys| ==> DetailFields(detail, keys)[i] == keys[i] + "=" + detail[keys[i]]
  {
    if keys != [] {
      var before, k := keys[..|keys| - 1], keys[|keys| - 1];
      FieldsClean(detail, before);
      assert k in keys;
      assert Free(k + "=" + detail[k], NUL);
    }
  }

  lemma {:induction false} FieldSplits(k: string, v: string, k': string, v': string)
    requires Free(k, '=') && Free(k', '=') && k + "=" + v == k' + "=" + v'
    ensures k == k' && v == v'
  {
    CutFirst('=', k, v, k', v');
  }

  lemma {:induction false} DetailsInjective(d: map<string, string>, d': map<string, string>)
    requires forall k :: k in d ==> Free(k, NUL) && Free(k, '=') && Free(d[k], NUL)
    requires forall k :: k in d' ==> Free(k, NUL) && Free(k, '=') && Free(d'[k], NUL)
    requires Details(d) == Details(d')
    ensures d == d'
  {
    var ks, ks' := InOrder(d.Keys), InOrder(d'.Keys);
    InOrderCorrect(d.Keys);
    InOrderCorrect(d'.Keys);
    FieldsClean(d, ks);
    FieldsClean(d', ks');
    forall i | 0 <= i < |ks| ensures ks[i] == ks'[i] && d[ks[i]] == d'[ks[i]] {
      assert ks[i] in ks && ks'[i] in ks';
      FieldSplits(ks[i], d[ks[i]], ks'[i], d'[ks'[i]]);
    }
    assert ks == ks';
    SameDetails(d, d', ks);
  }

  lemma {:induction false} SameDetails(d: map<string, string>, d': map<string, string>, ks: seq<string>)
    requires (forall k :: k in ks <==> k in d) && (forall k :: k in ks <==> k in d')
    requires forall i :: 0 <= i < |ks| ==> d[ks[i]] == d'[ks[i]]
    ensures d == d'
  {
    forall k | k in d ensures k in d' && d[k] == d'[k] {
      assert k in ks;
      var i :| 0 <= i < |ks| && ks[i] == k;
    }
    assert forall k :: k in d' ==> k in ks;
  }

  ghost predicate CleanEntry(e: Entry) {
    CleanEvent(e.event) && Free(e.recordedAt, NUL) && Free(e.prevHash, NUL)
  }

  // THEOREM. Entries without NUL, and without '=' in keys, are told apart by their encoding.
  lemma {:induction false} EncodingInjective(a: Entry, b: Entry)
    requires CleanEntry(a) && CleanEntry(b) && Encoding(a) == Encoding(b)
    ensures a == b.(hash := a.hash)
  {
    var fa, fb := Fields(a), Fields(b);
    FieldsFree(a);
    FieldsFree(b);
    TerminatedInjective(fa, a.prevHash, fb, b.prevHash);
    assert fa[0] == fb[0] && fa[1] == fb[1] && fa[2] == fb[2] && fa[3] == fb[3];
    assert fa[4..] == Details(a.event.detail) && fb[4..] == Details(b.event.detail);
    DecimalInjective(a.sequence, b.sequence);
    DetailsInjective(a.event.detail, b.event.detail);
  }

  ghost function Fields(e: Entry): seq<string> {
    [Decimal(e.sequence), e.recordedAt, e.event.action, e.event.actor] + Details(e.event.detail)
  }

  lemma {:induction false} FieldsFree(e: Entry)
    requires CleanEntry(e)
    ensures forall f :: f in Fields(e) ==> Free(f, NUL)
  {
    InOrderCorrect(e.event.detail.Keys);
    FieldsClean(e.event.detail, InOrder(e.event.detail.Keys));
    DecimalClean(e.sequence);
  }

  // ----- the chain

  ghost predicate Accepted(hash: string -> string, es: seq<Entry>) {
    forall i :: 0 <= i < |es| ==> Follows(hash, es, i)
  }

  ghost predicate Follows(hash: string -> string, es: seq<Entry>, i: nat)
    requires i < |es|
  {
    es[i].sequence == i + 1 && es[i].prevHash == LastHash(es[..i]) && es[i].hash == hash(Encoding(es[i]))
  }

  function LastHash(es: seq<Entry>): string { if es == [] then "" else es[|es| - 1].hash }

  ghost function Chain(hash: string -> string, prevHash: string, sequence: nat, at: string, event: Event): Entry {
    var e := Entry(sequence, at, event, prevHash, "");
    e.(hash := hash(Encoding(e)))
  }

  // The hash is not part of what is hashed.
  lemma {:induction false} EncodingIgnoresHash(e: Entry, h: string)
    ensures Encoding(e.(hash := h)) == Encoding(e)
  {
  }

  // Told by neighbours: entries are numbered from 1, the first follows nothing, and each other
  // one names the hash of the entry before it.
  lemma {:induction false} LinkedExactly(hash: string -> string, es: seq<Entry>)
    ensures Accepted(hash, es) <==>
      && (es != [] ==> es[0].prevHash == "")
      && (forall i :: 0 < i < |es| ==> es[i].prevHash == es[i - 1].hash)
      && (forall i :: 0 <= i < |es| ==> es[i].sequence == i + 1 && es[i].hash == hash(Encoding(es[i])))
  {
    hide Encoding;
    if Accepted(hash, es) {
      if es != [] { assert Follows(hash, es, 0); }
      forall i | 0 <= i < |es|
        ensures es[i].sequence == i + 1 && es[i].hash == hash(Encoding(es[i])) && (i > 0 ==> es[i].prevHash == es[i - 1].hash)
      {
        assert Follows(hash, es, i);
      }
    } else {
      var i: nat :| i < |es| && !Follows(hash, es, i);
      assert i > 0 ==> LastHash(es[..i]) == es[i - 1].hash;
    }
  }

  // THEOREM. Appending keeps the log accepted.
  lemma {:induction false} AppendKeeps(hash: string -> string, es: seq<Entry>, at: string, event: Event)
    requires Accepted(hash, es)
    ensures Accepted(hash, es + [Chain(hash, LastHash(es), |es| + 1, at, event)])
  {
    hide Encoding;
    var e := Chain(hash, LastHash(es), |es| + 1, at, event);
    var es' := es + [e];
    EncodingIgnoresHash(e, "");
    forall i | 0 <= i < |es'| ensures Follows(hash, es', i) {
      assert es'[..i] == es[..i];
      if i < |es| { assert Follows(hash, es, i); }
    }
  }

  ghost predicate CleanEvents(es: seq<Entry>) {
    forall i :: 0 <= i < |es| ==> CleanEvent(es[i].event)
  }

  ghost predicate FreeTimes(es: seq<Entry>) {
    forall i :: 0 <= i < |es| ==> Free(es[i].recordedAt, NUL)
  }

  lemma {:induction false} FreePrevious(hash: string -> string, es: seq<Entry>, i: nat)
    requires HexHash(hash) && Accepted(hash, es) && i < |es|
    ensures Free(es[i].prevHash, NUL)
  {
    hide HexHash, Encoding;
    assert Follows(hash, es, i);
    if i > 0 {
      assert Follows(hash, es, i - 1);
      assert es[..i][i - 1] == es[i - 1];
      HexFree(hash, Encoding(es[i - 1]));
    }
  }

  lemma {:induction false} AcceptedPrefix(hash: string -> string, es: seq<Entry>, n: nat)
    requires Accepted(hash, es) && n <= |es|
    ensures Accepted(hash, es[..n])
  {
    forall i | 0 <= i < n ensures Follows(hash, es[..n], i) {
      assert Follows(hash, es, i) && es[..n][..i] == es[..i];
    }
  }

  // Two different texts with one hash, hashed for the entries k from the ends of two logs.
  ghost predicate CollisionAt(hash: string -> string, a: seq<Entry>, b: seq<Entry>, k: nat) {
    && 1 <= k <= |a| && k <= |b| && Encoding(a[|a| - k]) != Encoding(b[|b| - k])
    && hash(Encoding(a[|a| - k])) == hash(Encoding(b[|b| - k]))
  }

  ghost predicate Collision(hash: string -> string, a: seq<Entry>, b: seq<Entry>) {
    exists k :: CollisionAt(hash, a, b, k)
  }

  // Entries of the two logs that are hashed from the same text are the same.
  ghost predicate ToldApart(a: seq<Entry>, b: seq<Entry>) {
    forall i, j :: 0 <= i < |a| && 0 <= j < |b| && Encoding(a[i]) == Encoding(b[j]) ==> a[i] == b[j].(hash := a[i].hash)
  }

  lemma {:induction false} CollisionLifts(hash: string -> string, a: seq<Entry>, b: seq<Entry>)
    requires a != [] && b != [] && Collision(hash, a[..|a| - 1], b[..|b| - 1])
    ensures Collision(hash, a, b)
  {
    hide Encoding;
    var a', b' := a[..|a| - 1], b[..|b| - 1];
    var k: nat :| CollisionAt(hash, a', b', k);
    assert a'[|a'| - k] == a[|a| - (k + 1)] && b'[|b'| - k] == b[|b| - (k + 1)];
    assert CollisionAt(hash, a, b, k + 1);
  }

  lemma {:induction false} Binds(hash: string -> string, a: seq<Entry>, b: seq<Entry>)
    requires Accepted(hash, a) && Accepted(hash, b) && ToldApart(a, b)
    requires a != [] && b != [] && LastHash(a) == LastHash(b)
    ensures a == b || Collision(hash, a, b)
    decreases |a|
  {
    hide Encoding;
    var i, j := |a| - 1, |b| - 1;
    assert Follows(hash, a, i) && Follows(hash, b, j);
    if Encoding(a[i]) != Encoding(b[j]) {
      assert CollisionAt(hash, a, b, 1);
    } else {
      assert a == a[..i] + [a[i]] && b == b[..j] + [b[j]];
      if i > 0 {
        AcceptedPrefix(hash, a, i);
        AcceptedPrefix(hash, b, j);
        ToldPrefix(a, b, i, j);
        Binds(hash, a[..i], b[..j]);
        if a[..i] != b[..j] { CollisionLifts(hash, a, b); }
      }
    }
  }

  lemma {:induction false} ToldPrefix(a: seq<Entry>, b: seq<Entry>, m: nat, n: nat)
    requires ToldApart(a, b) && m <= |a| && n <= |b|
    ensures ToldApart(a[..m], b[..n])
  {
    hide Encoding;
  }

  // THEOREM (binding). Accepted logs of clean events with one final hash are equal, or two texts
  // hashed for them collide.
  lemma {:induction false} FinalHashBinds(hash: string -> string, a: seq<Entry>, b: seq<Entry>)
    requires HexHash(hash) && Accepted(hash, a) && Accepted(hash, b) && FreeTimes(a) && FreeTimes(b)
    requires CleanEvents(a) && CleanEvents(b) && a != [] && b != [] && LastHash(a) == LastHash(b)
    ensures a == b || Collision(hash, a, b)
  {
    hide Encoding, CleanEvent, HexHash, Accepted;
    forall i, j | 0 <= i < |a| && 0 <= j < |b| && Encoding(a[i]) == Encoding(b[j]) ensures a[i] == b[j].(hash := a[i].hash) {
      FreePrevious(hash, a, i);
      FreePrevious(hash, b, j);
      EncodingInjective(a[i], b[j]);
    }
    Binds(hash, a, b);
  }

  // ----- how far the encoding goes on other entries

  function Nuls(s: string): nat { if s == "" then 0 else (if s[0] == NUL then 1 else 0) + Nuls(s[1..]) }

  lemma {:induction false} NulsAdd(s: string, t: string)
    ensures Nuls(s + t) == Nuls(s) + Nuls(t)
  {
    if s == "" {
      assert s + t == t;
    } else {
      assert (s + t)[1..] == s[1..] + t;
      NulsAdd(s[1..], t);
    }
  }

  lemma {:induction false} NulsFree(s: string)
    ensures Nuls(s) == 0 <==> Free(s, NUL)
  {
    if s != "" {
      NulsFree(s[1..]);
      assert s == [s[0]] + s[1..];
    }
  }

  // Another entry, with a well-formed time and predecessor, that is hashed alike.
  ghost predicate Twins(a: Entry, b: Entry) {
    a != b.(hash := a.hash) && Encoding(a) == Encoding(b) && Free(b.recordedAt, NUL) && Free(b.prevHash, NUL)
  }

  ghost predicate HasTwin(a: Entry) {
    exists b :: Twins(a, b)
  }

  // Another event that is hashed alike in the same place.
  ghost predicate EventTwin(a: Entry, event: Event) {
    event != a.event && Encoding(a.(event := event)) == Encoding(a)
  }

  lemma {:induction false} EncodingUnfolds(e: Entry)
    ensures Encoding(e) == Decimal(e.sequence) + [NUL] + (e.recordedAt + [NUL] +
      (e.event.action + [NUL] + (e.event.actor + [NUL] + (Terminated(Details(e.event.detail)) + e.prevHash))))
  {
    var ds := Details(e.event.detail);
    var f := [Decimal(e.sequence), e.recordedAt, e.event.action, e.event.actor] + ds;
    assert f[1..][1..][1..][1..] == ds;
    StartsWithField(f, e.prevHash);
    StartsWithField(f[1..], e.prevHash);
    StartsWithField(f[1..][1..], e.prevHash);
    StartsWithField(f[1..][1..][1..], e.prevHash);
  }

  lemma {:induction false} TerminatedLast(fields: seq<string>, last: string)
    ensures Terminated(fields + [last]) == Terminated(fields) + last + [NUL]
  {
    if fields == [] {
      assert fields + [last] == [last] && [last][1..] == [];
    } else {
      assert (fields + [last])[1..] == fields[1..] + [last];
      TerminatedLast(fields[1..], last);
    }
  }

  lemma {:induction false} DetailsEmpty()
    ensures Details(map[]) == []
  {
    var m: map<string, string> := map[];
    assert m.Keys == {} && Listing({}) == [];
  }

  lemma {:induction false} DetailsNonempty(detail: map<string, string>)
    requires detail != map[]
    ensures Details(detail) != []
  {
    var k :| k in detail;
    InOrderCorrect(detail.Keys);
    assert k in InOrder(detail.Keys);
  }

  lemma {:induction false} OnlyItself(a: Entry, b: Entry)
    requires Free(a.recordedAt, NUL) && Free(a.prevHash, NUL) && Free(b.recordedAt, NUL) && Free(b.prevHash, NUL)
    requires a.event.detail == map[] && Free(a.event.action, NUL) && Free(a.event.actor, NUL)
    requires Encoding(a) == Encoding(b)
    ensures a == b.(hash := a.hash)
  {
    hide Encoding;
    EncodingUnfolds(a);
    EncodingUnfolds(b);
    DetailsEmpty();
    DecimalClean(a.sequence);
    DecimalClean(b.sequence);
    var ta := a.event.action + [NUL] + (a.event.actor + [NUL] + (Terminated([]) + a.prevHash));
    var tb := b.event.action + [NUL] + (b.event.actor + [NUL] + (Terminated(Details(b.event.detail)) + b.prevHash));
    CutFirst(NUL, Decimal(a.sequence), a.recordedAt + [NUL] + ta, Decimal(b.sequence), b.recordedAt + [NUL] + tb);
    CutFirst(NUL, a.recordedAt, ta, b.recordedAt, tb);
    DecimalInjective(a.sequence, b.sequence);
    TwoNuls(a, b, ta, tb);
    CutFirst(NUL, a.event.action, a.event.actor + [NUL] + (Terminated([]) + a.prevHash),
             b.event.action, b.event.actor + [NUL] + (Terminated(Details(b.event.detail)) + b.prevHash));
    CutFirst(NUL, a.event.actor, Terminated([]) + a.prevHash, b.event.actor, Terminated(Details(b.event.detail)) + b.prevHash);
    StartsWithField(Details(b.event.detail), b.prevHash);
    if b.event.detail != map[] { DetailsNonempty(b.event.detail); }
  }

  // Two NULs in all leave none inside the action or the actor.
  lemma {:induction false} TwoNuls(a: Entry, b: Entry, ta: string, tb: string)
    requires Free(a.event.action, NUL) && Free(a.event.actor, NUL) && Free(a.prevHash, NUL)
    requires ta == a.event.action + [NUL] + (a.event.actor + [NUL] + (Terminated([]) + a.prevHash))
    requires tb == b.event.action + [NUL] + (b.event.actor + [NUL] + (Terminated(Details(b.event.detail)) + b.prevHash))
    requires ta == tb
    ensures Free(b.event.action, NUL) && Free(b.event.actor, NUL)
  {
    var ra, rb := Terminated([]) + a.prevHash, Terminated(Details(b.event.detail)) + b.prevHash;
    assert ra == a.prevHash;
    NulsThrice(a.event.action, a.event.actor, ra);
    NulsThrice(b.event.action, b.event.actor, rb);
    NulsFree(a.event.action);
    NulsFree(a.event.actor);
    NulsFree(ra);
    NulsFree(b.event.action);
    NulsFree(b.event.actor);
  }

  lemma {:induction false} NulsThrice(s: string, t: string, u: string)
    ensures Nuls(s + [NUL] + (t + [NUL] + u)) == Nuls(s) + Nuls(t) + Nuls(u) + 2
  {
    assert Nuls([NUL]) == 1 by { assert [NUL][1..] == ""; }
    NulsAdd(t + [NUL], u);
    NulsAdd(t, [NUL]);
    NulsAdd(s + [NUL], t + [NUL] + u);
    NulsAdd(s, [NUL]);
  }

  // All fields but the last moved into the action.
  lemma {:induction false} DetailTwin(a: Entry)
    requires a.event.detail != map[] && Free(a.recordedAt, NUL) && Free(a.prevHash, NUL)
    ensures HasTwin(a) && exists event :: EventTwin(a, event)
  {
    hide Encoding, Details;
    DetailsNonempty(a.event.detail);
    var ds := Details(a.event.detail);
    var front, last := ds[..|ds| - 1], ds[|ds| - 1];
    var x := a.event.actor + [NUL] + Terminated(front);
    if front != [] { TerminatedEnds(front); }
    assert x == x[..|x| - 1] + [NUL];
    var b := a.(event := Event(a.event.action + [NUL] + x[..|x| - 1], last, map[]));
    assert ds == front + [last];
    TerminatedLast(front, last);
    EncodingUnfolds(a);
    EncodingUnfolds(b);
    DetailsEmpty();
    assert a.event.action + [NUL] + (a.event.actor + [NUL] + (Terminated(ds) + a.prevHash))
        == b.event.action + [NUL] + (b.event.actor + [NUL] + (Terminated([]) + b.prevHash));
    assert Twins(a, b) && EventTwin(a, b.event);
  }

  lemma {:induction false} TerminatedEnds(fields: seq<string>)
    requires fields != []
    ensures Terminated(fields) != "" && Terminated(fields)[|Terminated(fields)| - 1] == NUL
  {
    if fields[1..] != [] { TerminatedEnds(fields[1..]); }
  }

  // The border between action and actor moved to a NUL inside either.
  lemma {:induction false} BorderTwin(a: Entry)
    requires !(Free(a.event.action, NUL) && Free(a.event.actor, NUL)) && Free(a.recordedAt, NUL) && Free(a.prevHash, NUL)
    ensures HasTwin(a) && exists event :: EventTwin(a, event)
  {
    hide Encoding, Details;
    var whole := a.event.action + [NUL] + a.event.actor;
    var i := OtherNul(a);
    var b := a.(event := Event(whole[..i], whole[i + 1..], a.event.detail));
    assert whole == whole[..i] + [NUL] + whole[i + 1..];
    EncodingUnfolds(a);
    EncodingUnfolds(b);
    var rest := [NUL] + (Terminated(Details(a.event.detail)) + a.prevHash);
    assert whole + rest == a.event.action + [NUL] + (a.event.actor + rest);
    assert whole + rest == b.event.action + [NUL] + (b.event.actor + rest);
    assert a.event.actor + [NUL] + (Terminated(Details(a.event.detail)) + a.prevHash) == a.event.actor + rest;
    assert b.event.actor + [NUL] + (Terminated(Details(a.event.detail)) + a.prevHash) == b.event.actor + rest;
    assert Twins(a, b) && EventTwin(a, b.event);
  }

  lemma {:induction false} OtherNul(a: Entry) returns (i: nat)
    requires !(Free(a.event.action, NUL) && Free(a.event.actor, NUL))
    ensures var whole := a.event.action + [NUL] + a.event.actor;
      i < |whole| && whole[i] == NUL && i != |a.event.action|
  {
    if !Free(a.event.action, NUL) {
      i :| 0 <= i < |a.event.action| && a.event.action[i] == NUL;
    } else {
      var j :| 0 <= j < |a.event.actor| && a.event.actor[j] == NUL;
      i := |a.event.action| + 1 + j;
    }
  }

  // An event without details, and without NUL in its action and actor.
  predicate Bare(e: Event) { e.detail == map[] && Free(e.action, NUL) && Free(e.actor, NUL) }

  // An entry shares its text with a different one exactly if its event is not bare.
  lemma {:induction false} TwinsExactly(a: Entry)
    requires Free(a.recordedAt, NUL) && Free(a.prevHash, NUL)
    ensures HasTwin(a) <==> !Bare(a.event)
  {
    if a.event.detail != map[] {
      DetailTwin(a);
    } else if !(Free(a.event.action, NUL) && Free(a.event.actor, NUL)) {
      BorderTwin(a);
    } else {
      forall b ensures !Twins(a, b) {
        if Encoding(a) == Encoding(b) && Free(b.recordedAt, NUL) && Free(b.prevHash, NUL) { OnlyItself(a, b); }
      }
    }
  }

  // Another log that the verifier accepts, with the same final hash and no collision.
  ghost predicate Forgery(hash: string -> string, a: seq<Entry>, b: seq<Entry>) {
    && b != a && b != [] && Accepted(hash, b) && FreeTimes(b)
    && LastHash(b) == LastHash(a) && !Collision(hash, a, b)
  }

  lemma {:induction false} BareBinds(hash: string -> string, a: seq<Entry>, b: seq<Entry>)
    requires HexHash(hash) && Accepted(hash, a) && Accepted(hash, b) && FreeTimes(a) && FreeTimes(b)
    requires a != [] && b != [] && LastHash(a) == LastHash(b) && forall i :: 0 <= i < |a| ==> Bare(a[i].event)
    ensures a == b || Collision(hash, a, b)
  {
    hide Encoding, HexHash, Accepted;
    forall i, j | 0 <= i < |a| && 0 <= j < |b| && Encoding(a[i]) == Encoding(b[j]) ensures a[i] == b[j].(hash := a[i].hash) {
      FreePrevious(hash, a, i);
      FreePrevious(hash, b, j);
      OnlyItself(a[i], b[j]);
    }
    Binds(hash, a, b);
  }

  // The same entry but for an event that is hashed alike.
  ghost predicate HashedAlike(a: Entry, b: Entry) {
    a == b.(event := a.event) && Encoding(a) == Encoding(b)
  }

  lemma {:induction false} AlikeAccepted(hash: string -> string, a: seq<Entry>, b: seq<Entry>)
    requires Accepted(hash, a) && |a| == |b| && forall j :: 0 <= j < |a| ==> HashedAlike(a[j], b[j])
    ensures Accepted(hash, b)
  {
    hide Encoding;
    forall j | 0 <= j < |b| ensures Follows(hash, b, j) {
      assert Follows(hash, a, j) && HashedAlike(a[j], b[j]);
      if j > 0 { assert HashedAlike(a[j - 1], b[j - 1]) && a[..j][j - 1] == a[j - 1] && b[..j][j - 1] == b[j - 1]; }
    }
  }

  lemma {:induction false} AlikeNoCollision(hash: string -> string, a: seq<Entry>, b: seq<Entry>)
    requires |a| == |b| && forall j :: 0 <= j < |a| ==> HashedAlike(a[j], b[j])
    ensures !Collision(hash, a, b)
  {
    hide Encoding;
    forall k: nat ensures !CollisionAt(hash, a, b, k) {
      if 1 <= k <= |a| { assert HashedAlike(a[|a| - k], b[|a| - k]); }
    }
  }

  // One event replaced by its twin.
  lemma {:induction false} TwinForges(hash: string -> string, a: seq<Entry>, i: nat, event: Event)
    requires Accepted(hash, a) && FreeTimes(a) && i < |a| && EventTwin(a[i], event)
    ensures Forgery(hash, a, a[i := a[i].(event := event)])
  {
    var b := a[i := a[i].(event := event)];
    assert b[i].event != a[i].event;
    forall j | 0 <= j < |a| ensures HashedAlike(a[j], b[j]) {
      hide Encoding;
    }
    assert HashedAlike(a[|a| - 1], b[|a| - 1]);
    hide Encoding, Accepted, Collision, EventTwin;
    AlikeAccepted(hash, a, b);
    AlikeNoCollision(hash, a, b);
  }

  // THEOREM (editing, exactly). Of a log that the verifier accepts there is another that it
  // accepts with the same final hash, without any collision, exactly if some event has details,
  // or a NUL in its action or actor. So clean strings are needed on both sides of the comparison.
  lemma {:induction false} ForgeryExactly(hash: string -> string, a: seq<Entry>)
    requires HexHash(hash) && a != [] && Accepted(hash, a) && FreeTimes(a)
    ensures (exists b :: Forgery(hash, a, b)) <==> exists i :: 0 <= i < |a| && !Bare(a[i].event)
  {
    hide Encoding, Accepted, HexHash, EventTwin, Bare;
    if i :| 0 <= i < |a| && !Bare(a[i].event) {
      FreePrevious(hash, a, i);
      HasEventTwin(a[i]);
      var event :| EventTwin(a[i], event);
      TwinForges(hash, a, i, event);
    } else {
      forall b ensures !Forgery(hash, a, b) {
        if b != [] && Accepted(hash, b) && FreeTimes(b) && LastHash(b) == LastHash(a) { BareBinds(hash, a, b); }
      }
    }
  }

  lemma {:induction false} HasEventTwin(a: Entry)
    requires !Bare(a.event) && Free(a.recordedAt, NUL) && Free(a.prevHash, NUL)
    ensures exists event :: EventTwin(a, event)
  {
    hide EventTwin;
    if a.event.detail != map[] { DetailTwin(a); } else { BorderTwin(a); }
  }

  // ----- the log and its verifier

  // The append-only log of a store; appends are serialized.
  class Log {
    var entries: seq<Entry>

    constructor ()
      ensures entries == []
    {
      entries := [];
    }

    method AppendAuditEvent(hash: string -> string, at: string, event: Event) returns (entry: Entry)
      requires Accepted(hash, entries)
      modifies this
      ensures Accepted(hash, entries)
      ensures entries == old(entries) + [entry] && entry == Chain(hash, LastHash(old(entries)), |old(entries)| + 1, at, event)
    {
      var prevHash := "";
      if |entries| > 0 {
        prevHash := entries[|entries| - 1].hash;
      }
      entry := Entry(|entries| + 1, at, event, prevHash, "");
      var encoding := Encode(entry);
      entry := entry.(hash := hash(encoding));
      AppendKeeps(hash, entries, at, event);
      entries := entries + [entry];
    }
  }

  // hashEntry's input, built field by field.
  method Encode(e: Entry) returns (b: string)
    ensures b == Encoding(e)
  {
    hide Encoding, Details;
    b := Decimal(e.sequence) + [NUL] + e.recordedAt + [NUL] + e.event.action + [NUL] + e.event.actor + [NUL];
    var details := EncodeDetails(e.event.detail);
    EncodingUnfolds(e);
    AssembleEncoding(e, details);
    b := b + details + e.prevHash;
  }

  method EncodeDetails(detail: map<string, string>) returns (b: string)
    ensures b == Terminated(Details(detail))
  {
    b := "";
    var keys := SortKeys(detail.Keys);
    InOrderCorrect(detail.Keys);
    for i := 0 to |keys|
      invariant b == Terminated(DetailFields(detail, keys[..i]))
    {
      assert keys[..i + 1][..i] == keys[..i];
      TerminatedLast(DetailFields(detail, keys[..i]), keys[i] + "=" + detail[keys[i]]);
      b := b + (keys[i] + "=" + detail[keys[i]]) + [NUL];
    }
    assert keys[..|keys|] == keys;
  }

  lemma {:induction false} AssembleEncoding(e: Entry, ds: string)
    ensures Decimal(e.sequence) + [NUL] + e.recordedAt + [NUL] + e.event.action + [NUL] + e.event.actor + [NUL] + ds + e.prevHash
      == Decimal(e.sequence) + [NUL] + (e.recordedAt + [NUL] + (e.event.action + [NUL] + (e.event.actor + [NUL] + (ds + e.prevHash))))
  {
  }

  datatype Defect = Sequence | Link | Content

  // THEOREM. The verifier accepts exactly the accepted logs, and otherwise names the first
  // entry that does not follow the ones before it.
  method VerifyChain(hash: string -> string, entries: seq<Entry>) returns (defect: Option<(nat, Defect)>)
    ensures defect.None? <==> Accepted(hash, entries)
    ensures defect.Some? ==>
      var i := defect.value.0;
      && i < |entries| && Accepted(hash, entries[..i]) && !Follows(hash, entries, i)
      && (defect.value.1 == Sequence <==> entries[i].sequence != i + 1)
      && (defect.value.1 == Content ==> entries[i].prevHash == LastHash(entries[..i]) && entries[i].hash != hash(Encoding(entries[i])))
  {
    hide Encoding;
    var prevHash := "";
    for i := 0 to |entries|
      invariant Accepted(hash, entries[..i]) && prevHash == LastHash(entries[..i])
    {
      var e := entries[i];
      assert Accepted(hash, entries) ==> Follows(hash, entries, i);
      if e.sequence != i + 1 {
        return Some((i, Sequence));
      }
      if e.prevHash != prevHash {
        return Some((i, Link));
      }
      var encoding := Encode(e);
      if hash(encoding) != e.hash {
        return Some((i, Content));
      }
      prevHash := e.hash;
      AcceptedGrows(hash, entries, i);
    }
    assert entries[..|entries|] == entries;
    return None;
  }

  lemma {:induction false} AcceptedGrows(hash: string -> string, es: seq<Entry>, n: nat)
    requires n < |es| && Accepted(hash, es[..n]) && Follows(hash, es, n)
    ensures Accepted(hash, es[..n + 1])
  {
    hide Encoding;
    var longer := es[..n + 1];
    forall i | 0 <= i < |longer| ensures Follows(hash, longer, i) {
      assert longer[..i] == es[..i];
      if i < n {
        assert Follows(hash, es[..n], i) && es[..n][..i] == es[..i];
      }
    }
  }
}
