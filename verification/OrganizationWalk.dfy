// The bounded walk of an AWS organization (pkg/discovery/aws/plugin.go, parser.go).
//
// An oracle says what each paged listing returns. The walk fills one inventory and one counter
// as it recurses; it collects exactly the first MAX_OBJECTS of the organization in preorder.
module OrganizationWalk {
  import opened Wrappers

  const MAX_OBJECTS: nat := 100000
  const MAX_OU_DEPTH: nat := 5

  datatype Root = Root(id: string, name: string, arn: string)
  datatype OU = OU(id: string, name: string, arn: string, path: string)
  datatype Account = Account(
    id: string, name: string, arn: string, email: string, state: string, joinedMethod: string, joinedAt: Option<string>)

  // The pages a listing returns; after them it ends, or a call fails.
  datatype Listing<T> = Listing(pages: seq<seq<T>>, fails: bool)

  datatype ListingError = CallFailed | TooMany

  datatype Oracle = Oracle(roots: Listing<Root>, ous: string -> Listing<OU>, accounts: string -> Listing<Account>)

  datatype Object =
    | RootObject(root: Root)
    | OUObject(ou: OU, parent: string)
    | AccountObject(account: Account, parent: string)

  datatype CollectionError = PartialAccounts(parent: string) | PartialOUs(parent: string) | RootsFailed | ExceededObjects

  // ----- paged listings

  function Concat<T>(pages: seq<seq<T>>): seq<T> {
    if pages == [] then [] else Concat(pages[..|pages| - 1]) + pages[|pages| - 1]
  }

  // A listing is complete if no call fails and it stays within the bound.
  predicate Complete<T>(l: Listing<T>) { !l.fails && |Concat(l.pages)| <= MAX_OBJECTS }

  // What the walk goes on with: an incomplete listing counts as empty.
  function Items<T>(l: Listing<T>): seq<T> { if Complete(l) then Concat(l.pages) else [] }

  lemma {:induction false} ConcatGrows<T>(pages: seq<seq<T>>, i: nat)
    requires i <= |pages|
    ensures |Concat(pages[..i])| <= |Concat(pages)|
  {
    if i < |pages| {
      ConcatGrows(pages[..|pages| - 1], i);
      assert pages[..|pages| - 1][..i] == pages[..i];
    } else {
      assert pages[..i] == pages;
    }
  }

  lemma {:induction false} UnlistedEmpty<T>(l: Listing<T>)
    ensures !Complete(l) ==> Items(l) == []
  {
  }

  lemma {:induction false} NoUnits(o: Oracle, parent: string, levels: nat)
    requires levels > 0
    ensures Units(o, [], parent, levels) == [] && UnitsListed(o, [], levels)
  {
  }

  lemma {:induction false} NoRoots(o: Oracle)
    ensures Organization(o, []) == [] && RootsListed(o, [])
  {
  }

  lemma {:induction false} UnitsFrom(o: Oracle, ous: seq<OU>, parent: string, levels: nat, i: nat)
    requires levels > 0 && i < |ous|
    ensures Units(o, ous[i..], parent, levels)
      == [OUObject(ous[i], parent)] + Preorder(o, ous[i].id, levels - 1) + Units(o, ous[i + 1..], parent, levels)
    ensures UnitsListed(o, ous[i..], levels) <==> AllListed(o, ous[i].id, levels - 1) && UnitsListed(o, ous[i + 1..], levels)
  {
    assert ous[i..][0] == ous[i] && ous[i..][1..] == ous[i + 1..];
  }

  lemma {:induction false} RootsFrom(o: Oracle, roots: seq<Root>, i: nat)
    requires i < |roots|
    ensures Organization(o, roots[i..])
      == [RootObject(roots[i])] + Preorder(o, roots[i].id, MAX_OU_DEPTH) + Organization(o, roots[i + 1..])
    ensures RootsListed(o, roots[i..]) <==> AllListed(o, roots[i].id, MAX_OU_DEPTH) && RootsListed(o, roots[i + 1..])
  {
    assert roots[i..][0] == roots[i] && roots[i..][1..] == roots[i + 1..];
  }

  method ListAll<T>(l: Listing<T>) returns (r: Result<seq<T>, ListingError>)
    ensures r.Ok? <==> !l.fails && |Concat(l.pages)| <= 100000
    ensures r.Ok? ==> r.value == Concat(l.pages)
    ensures Complete(l) <==> r.Ok?
    ensures r.Ok? ==> r.value == Items(l)
    ensures r == Err(CallFailed) ==> l.fails
    ensures r == Err(TooMany) ==> |Concat(l.pages)| > MAX_OBJECTS
  {
    var out := [];
    for i := 0 to |l.pages|
      invariant out == Concat(l.pages[..i]) && |out| <= MAX_OBJECTS
    {
      out := out + l.pages[i];
      assert l.pages[..i + 1][..i] == l.pages[..i];
      if |out| > MAX_OBJECTS {
        ConcatGrows(l.pages, i + 1);
        return Err(TooMany);
      }
    }
    assert l.pages[..|l.pages|] == l.pages;
    r := if l.fails then Err(CallFailed) else Ok(out);
  }

  // ----- the organization in preorder

  function AccountObjects(accounts: seq<Account>, parent: string): seq<Object> {
    seq(|accounts|, i requires 0 <= i < |accounts| => AccountObject(accounts[i], parent))
  }

  // What lies below a parent, down to `levels` levels of organizational units.
  function Preorder(o: Oracle, parent: string, levels: nat): seq<Object>
    decreases levels, 1, 0
  {
    AccountObjects(Items(o.accounts(parent)), parent) + if levels == 0 then [] else Units(o, Items(o.ous(parent)), parent, levels)
  }

  function Units(o: Oracle, ous: seq<OU>, parent: string, levels: nat): seq<Object>
    requires levels > 0
    decreases levels, 0, |ous|
  {
    if ous == [] then []
    else [OUObject(ous[0], parent)] + Preorder(o, ous[0].id, levels - 1) + Units(o, ous[1..], parent, levels)
  }

  function Organization(o: Oracle, roots: seq<Root>): seq<Object> {
    if roots == [] then [] else [RootObject(roots[0])] + Preorder(o, roots[0].id, MAX_OU_DEPTH) + Organization(o, roots[1..])
  }

  // Every listing that the walk needs is complete.
  predicate AllListed(o: Oracle, parent: string, levels: nat)
    decreases levels, 1, 0
  {
    Complete(o.accounts(parent)) && (levels > 0 ==> Complete(o.ous(parent)) && UnitsListed(o, Items(o.ous(parent)), levels))
  }

  predicate UnitsListed(o: Oracle, ous: seq<OU>, levels: nat)
    requires levels > 0
    decreases levels, 0, |ous|
  {
    ous == [] || (AllListed(o, ous[0].id, levels - 1) && UnitsListed(o, ous[1..], levels))
  }

  predicate RootsListed(o: Oracle, roots: seq<Root>) {
    roots == [] || (AllListed(o, roots[0].id, MAX_OU_DEPTH) && RootsListed(o, roots[1..]))
  }

  function Take<T>(s: seq<T>, n: nat): seq<T> { if |s| <= n then s else s[..n] }

  lemma {:induction false} TakeAppend<T>(a: seq<T>, b: seq<T>, n: nat)
    ensures |Take(a, n)| <= n
    ensures Take(a + b, n) == Take(a, n) + Take(b, n - |Take(a, n)|)
  {
  }

  // ----- the organization by its paths

  ghost predicate HasUnit(o: Oracle, parent: string, id: string) {
    exists j :: 0 <= j < |Items(o.ous(parent))| && Items(o.ous(parent))[j].id == id
  }

  // From a parent down, each a unit listed for the one before it.
  ghost predicate Path(o: Oracle, parent: string, path: seq<string>) {
    path != [] && path[0] == parent && forall i :: 0 <= i < |path| - 1 ==> HasUnit(o, path[i], path[i + 1])
  }

  lemma {:induction false} PathBelow(o: Oracle, parent: string, unit: string, path: seq<string>)
    requires HasUnit(o, parent, unit) && Path(o, unit, path)
    ensures Path(o, parent, [parent] + path)
  {
    var longer := [parent] + path;
    forall i | 0 <= i < |longer| - 1 ensures HasUnit(o, longer[i], longer[i + 1]) {
      if i > 0 { assert HasUnit(o, path[i - 1], path[i]); }
    }
  }

  lemma {:induction false} PathFrom(o: Oracle, parent: string, path: seq<string>)
    requires Path(o, parent, path) && |path| > 1
    ensures HasUnit(o, parent, path[1]) && Path(o, path[1], path[1..])
  {
    assert HasUnit(o, path[0], path[1]);
    var rest := path[1..];
    forall i | 0 <= i < |rest| - 1 ensures HasUnit(o, rest[i], rest[i + 1]) {
      assert HasUnit(o, path[i + 1], path[i + 2]);
    }
  }

  // The walk lists the accounts of every path's end, and its units if the end is not too deep.
  ghost predicate EndListed(o: Oracle, path: seq<string>, levels: nat)
    requires path != []
  {
    var end := path[|path| - 1];
    Complete(o.accounts(end)) && (|path| <= levels ==> Complete(o.ous(end)))
  }

  lemma {:induction false} UnitListed(o: Oracle, ous: seq<OU>, levels: nat, j: nat)
    requires levels > 0 && j < |ous| && UnitsListed(o, ous, levels)
    ensures AllListed(o, ous[j].id, levels - 1)
  {
    if j > 0 { UnitListed(o, ous[1..], levels, j - 1); }
  }

  lemma {:induction false} UnlistedUnit(o: Oracle, ous: seq<OU>, levels: nat) returns (j: nat)
    requires levels > 0 && !UnitsListed(o, ous, levels)
    ensures j < |ous| && !AllListed(o, ous[j].id, levels - 1)
  {
    j := 0;
    if AllListed(o, ous[0].id, levels - 1) {
      j := UnlistedUnit(o, ous[1..], levels);
      j := j + 1;
    }
  }

  lemma {:induction false} PathListed(o: Oracle, parent: string, levels: nat, path: seq<string>)
    requires AllListed(o, parent, levels) && Path(o, parent, path) && |path| <= levels + 1
    ensures EndListed(o, path, levels)
    decreases |path|
  {
    if |path| > 1 {
      PathFrom(o, parent, path);
      var ous := Items(o.ous(parent));
      var j :| 0 <= j < |ous| && ous[j].id == path[1];
      UnitListed(o, ous, levels, j);
      PathListed(o, path[1], levels - 1, path[1..]);
    }
  }

  lemma {:induction false} UnlistedPath(o: Oracle, parent: string, levels: nat) returns (path: seq<string>)
    requires !AllListed(o, parent, levels)
    ensures Path(o, parent, path) && |path| <= levels + 1 && !EndListed(o, path, levels)
    decreases levels
  {
    path := [parent];
    if EndListed(o, path, levels) {
      var j := UnlistedUnit(o, Items(o.ous(parent)), levels);
      var unit := Items(o.ous(parent))[j].id;
      var below := UnlistedPath(o, unit, levels - 1);
      PathBelow(o, parent, unit, below);
      path := [parent] + below;
    }
  }

  // THEOREM (what must be listed). A walk is without failed listings exactly if the accounts and,
  // above the deepest level, the units of every parent that a path leads to are listed whole.
  lemma {:induction false} ListedExactly(o: Oracle, parent: string, levels: nat)
    ensures AllListed(o, parent, levels) <==>
      forall path :: Path(o, parent, path) && |path| <= levels + 1 ==> EndListed(o, path, levels)
  {
    if AllListed(o, parent, levels) {
      forall path | Path(o, parent, path) && |path| <= levels + 1 ensures EndListed(o, path, levels) {
        PathListed(o, parent, levels, path);
      }
    } else {
      var path := UnlistedPath(o, parent, levels);
    }
  }

  // An object is listed for the end of the path, as a unit only above the deepest level.
  ghost predicate Leads(o: Oracle, parent: string, levels: nat, path: seq<string>, x: Object) {
    && Path(o, parent, path) && |path| <= levels + 1
    && match x
       case RootObject(_) => false
       case OUObject(ou, p) => p == path[|path| - 1] && |path| <= levels && ou in Items(o.ous(p))
       case AccountObject(account, p) => p == path[|path| - 1] && account in Items(o.accounts(p))
  }

  lemma {:induction false} UnitsBelow(o: Oracle, ous: seq<OU>, parent: string, levels: nat, x: Object)
    requires levels > 0
    ensures x in Units(o, ous, parent, levels) <==>
      exists j :: 0 <= j < |ous| && (x == OUObject(ous[j], parent) || x in Preorder(o, ous[j].id, levels - 1))
    decreases |ous|
  {
    if ous != [] {
      var rest := ous[1..];
      UnitsBelow(o, rest, parent, levels, x);
      if j :| 0 <= j < |rest| && (x == OUObject(rest[j], parent) || x in Preorder(o, rest[j].id, levels - 1)) {
        assert ous[j + 1] == rest[j];
      }
      if j :| 0 <= j < |ous| && (x == OUObject(ous[j], parent) || x in Preorder(o, ous[j].id, levels - 1)) {
        assert j > 0 ==> rest[j - 1] == ous[j];
      }
    }
  }

  lemma {:induction false} InPreorder(o: Oracle, parent: string, levels: nat, x: Object)
    ensures x in Preorder(o, parent, levels) <==>
      || (x.AccountObject? && x.parent == parent && x.account in Items(o.accounts(parent)))
      || (levels > 0 && x in Units(o, Items(o.ous(parent)), parent, levels))
  {
    hide Units, Items;
    var accounts := Items(o.accounts(parent));
    if x.AccountObject? && x.parent == parent && x.account in accounts {
      var j :| 0 <= j < |accounts| && accounts[j] == x.account;
      assert AccountObjects(accounts, parent)[j] == x;
    }
  }

  lemma {:induction false} LeadsBelow(o: Oracle, parent: string, unit: string, levels: nat, path: seq<string>, x: Object)
    requires levels > 0 && HasUnit(o, parent, unit) && Leads(o, unit, levels - 1, path, x)
    ensures Leads(o, parent, levels, [parent] + path, x)
  {
    hide Items, HasUnit;
    PathBelow(o, parent, unit, path);
  }

  lemma {:induction false} LeadsFrom(o: Oracle, parent: string, levels: nat, path: seq<string>, x: Object)
    requires Leads(o, parent, levels, path, x) && |path| > 1
    ensures HasUnit(o, parent, path[1]) && Leads(o, path[1], levels - 1, path[1..], x)
  {
    hide Items, HasUnit;
    PathFrom(o, parent, path);
  }

  lemma {:induction false} PathOf(o: Oracle, parent: string, levels: nat, x: Object) returns (path: seq<string>)
    requires x in Preorder(o, parent, levels)
    ensures Leads(o, parent, levels, path, x)
    decreases levels
  {
    hide Preorder, Units, Items;
    InPreorder(o, parent, levels, x);
    path := [parent];
    if !Leads(o, parent, levels, path, x) {
      var ous := Items(o.ous(parent));
      UnitsBelow(o, ous, parent, levels, x);
      var j :| 0 <= j < |ous| && (x == OUObject(ous[j], parent) || x in Preorder(o, ous[j].id, levels - 1));
      var below := PathOf(o, ous[j].id, levels - 1, x);
      LeadsBelow(o, parent, ous[j].id, levels, below, x);
      path := [parent] + below;
    }
  }

  lemma {:induction false} LedTo(o: Oracle, parent: string, levels: nat, path: seq<string>, x: Object)
    requires Leads(o, parent, levels, path, x)
    ensures x in Preorder(o, parent, levels)
    decreases |path|
  {
    hide Preorder, Units, Items;
    InPreorder(o, parent, levels, x);
    var ous := Items(o.ous(parent));
    if levels > 0 { UnitsBelow(o, ous, parent, levels, x); }
    if |path| > 1 {
      LeadsFrom(o, parent, levels, path, x);
      var j :| 0 <= j < |ous| && ous[j].id == path[1];
      LedTo(o, path[1], levels - 1, path[1..], x);
    } else if x.OUObject? {
      var j :| 0 <= j < |ous| && ous[j] == x.ou;
    }
  }

  // THEOREM (what is found). The walk finds exactly the units and accounts listed for the ends of
  // the paths within its depth.
  lemma {:induction false} FoundExactly(o: Oracle, parent: string, levels: nat, x: Object)
    ensures x in Preorder(o, parent, levels) <==> exists path :: Leads(o, parent, levels, path, x)
  {
    if x in Preorder(o, parent, levels) {
      var path := PathOf(o, parent, levels, x);
    }
    if path :| Leads(o, parent, levels, path, x) {
      LedTo(o, parent, levels, path, x);
    }
  }

  // ----- the inventory

  function RootsOf(s: seq<Object>): seq<Root> {
    if s == [] then [] else RootsOf(s[..|s| - 1]) + if s[|s| - 1].RootObject? then [s[|s| - 1].root] else []
  }

  function OUsOf(s: seq<Object>): seq<(OU, string)> {
    if s == [] then [] else OUsOf(s[..|s| - 1]) + if s[|s| - 1].OUObject? then [(s[|s| - 1].ou, s[|s| - 1].parent)] else []
  }

  function AccountsOf(s: seq<Object>): seq<(Account, string)> {
    if s == [] then [] else AccountsOf(s[..|s| - 1]) + if s[|s| - 1].AccountObject? then [(s[|s| - 1].account, s[|s| - 1].parent)] else []
  }

  class Inventory {
    var roots: seq<Root>
    var ous: seq<(OU, string)>
    var accounts: seq<(Account, string)>
    var objectCount: nat
    ghost var emitted: seq<Object>

    constructor ()
      ensures Valid() && emitted == []
    {
      roots, ous, accounts, objectCount, emitted := [], [], [], 0, [];
    }

    // The counter never passes the bound.
    ghost predicate Valid()
      reads this
    {
      && objectCount == |emitted| == |roots| + |ous| + |accounts| && objectCount <= MAX_OBJECTS
      && roots == RootsOf(emitted) && ous == OUsOf(emitted) && accounts == AccountsOf(emitted)
    }

    method Add(x: Object)
      requires Valid() && objectCount < MAX_OBJECTS
      modifies this
      ensures Valid() && emitted == old(emitted) + [x] && objectCount == old(objectCount) + 1
    {
      match x {
        case RootObject(root) => roots := roots + [root];
        case OUObject(ou, parent) => ous := ous + [(ou, parent)];
        case AccountObject(account, parent) => accounts := accounts + [(account, parent)];
      }
      objectCount := objectCount + 1;
      emitted := emitted + [x];
      assert emitted[..|emitted| - 1] == old(emitted);
    }

    // The walk below one parent: the accounts, then each unit and what lies below it.
    method Walk(o: Oracle, parent: string, depth: nat) returns (errs: seq<CollectionError>)
      requires Valid() && depth <= MAX_OU_DEPTH
      modifies this
      ensures Valid()
      ensures emitted == old(emitted) + Take(Preorder(o, parent, MAX_OU_DEPTH - depth), MAX_OBJECTS - |old(emitted)|)
      ensures errs == [] <==>
        AllListed(o, parent, MAX_OU_DEPTH - depth) && |old(emitted)| + |Preorder(o, parent, MAX_OU_DEPTH - depth)| <= MAX_OBJECTS
      decreases MAX_OU_DEPTH - depth, 1
    {
      hide RootsOf, OUsOf, AccountsOf, Units, UnitsListed, AccountObjects, Complete, Items, Concat;
      var capped;
      errs, capped := AddAccounts(o, parent);
      ghost var levels := MAX_OU_DEPTH - depth;
      ghost var direct := AccountObjects(Items(o.accounts(parent)), parent);
      ghost var below := if levels == 0 then [] else Units(o, Items(o.ous(parent)), parent, levels);
      assert Preorder(o, parent, levels) == direct + below;
      TakeAppend(direct, below, MAX_OBJECTS - |old(emitted)|);
      UnlistedEmpty(o.ous(parent));
      if levels > 0 { NoUnits(o, parent, levels); }
      if capped || depth >= MAX_OU_DEPTH {
        return;
      }
      var ous := ListAll(o.ous(parent));
      if ous.Err? {
        errs := errs + [PartialOUs(parent)];
        return;
      }
      var more := WalkUnits(o, ous.value, parent, depth);
      errs := errs + more;
    }

    method AddAccounts(o: Oracle, parent: string) returns (errs: seq<CollectionError>, capped: bool)
      requires Valid()
      modifies this
      ensures Valid()
      ensures var direct := AccountObjects(Items(o.accounts(parent)), parent);
        && emitted == old(emitted) + Take(direct, MAX_OBJECTS - |old(emitted)|)
        && (capped <==> |old(emitted)| + |direct| > MAX_OBJECTS)
      ensures errs == [] <==> Complete(o.accounts(parent)) && !capped
    {
      var accounts := ListAll(o.accounts(parent));
      if accounts.Err? {
        return [PartialAccounts(parent)], false;
      }
      capped := AddAll(accounts.value, parent);
      errs := if capped then [ExceededObjects] else [];
    }

    method AddAll(accounts: seq<Account>, parent: string) returns (capped: bool)
      requires Valid()
      modifies this
      ensures Valid() && emitted == old(emitted) + Take(AccountObjects(accounts, parent), MAX_OBJECTS - |old(emitted)|)
      ensures capped <==> |old(emitted)| + |accounts| > MAX_OBJECTS
    {
      hide RootsOf, OUsOf, AccountsOf;
      ghost var direct := AccountObjects(accounts, parent);
      for i := 0 to |accounts|
        invariant Valid() && emitted == old(emitted) + direct[..i]
      {
        if objectCount >= MAX_OBJECTS {
          return true;
        }
        Add(AccountObject(accounts[i], parent));
        assert direct[..i + 1] == direct[..i] + [direct[i]];
      }
      return false;
    }

    method WalkUnits(o: Oracle, ous: seq<OU>, parent: string, depth: nat) returns (errs: seq<CollectionError>)
      requires Valid() && depth < MAX_OU_DEPTH
      modifies this
      ensures Valid()
      ensures emitted == old(emitted) + Take(Units(o, ous, parent, MAX_OU_DEPTH - depth), MAX_OBJECTS - |old(emitted)|)
      ensures errs == [] <==>
        UnitsListed(o, ous, MAX_OU_DEPTH - depth) && |old(emitted)| + |Units(o, ous, parent, MAX_OU_DEPTH - depth)| <= MAX_OBJECTS
      decreases MAX_OU_DEPTH - depth, 0
    {
      hide Preorder, AllListed, RootsOf, OUsOf, AccountsOf, Units, UnitsListed, Concat, Complete, Items;
      ghost var levels := MAX_OU_DEPTH - depth;
      errs := [];
      assert ous[0..] == ous;
      for i := 0 to |ous|
        invariant Valid()
        invariant emitted + Take(Units(o, ous[i..], parent, levels), MAX_OBJECTS - |emitted|)
          == old(emitted) + Take(Units(o, ous, parent, levels), MAX_OBJECTS - |old(emitted)|)
        invariant (errs == [] && UnitsListed(o, ous[i..], levels) && |emitted| + |Units(o, ous[i..], parent, levels)| <= MAX_OBJECTS)
          <==> (UnitsListed(o, ous, levels) && |old(emitted)| + |Units(o, ous, parent, levels)| <= MAX_OBJECTS)
      {
        ghost var before := emitted;
        ghost var below, later := Preorder(o, ous[i].id, levels - 1), Units(o, ous[i + 1..], parent, levels);
        UnitsFrom(o, ous, parent, levels, i);
        if objectCount >= MAX_OBJECTS {
          errs := errs + [ExceededObjects];
          return;
        }
        Add(OUObject(ous[i], parent));
        var more := Walk(o, ous[i].id, depth + 1);
        errs := errs + more;
        TakeThree(before, OUObject(ous[i], parent), below, later, MAX_OBJECTS);
      }
      assert ous[|ous|..] == [];
      NoUnits(o, parent, levels);
    }

    // One target's organization, root by root.
    method Discover(o: Oracle) returns (errs: seq<CollectionError>)
      requires Valid() && emitted == []
      modifies this
      ensures Valid()
      ensures !Complete(o.roots) ==> emitted == [] && errs == [RootsFailed]
      ensures Complete(o.roots) ==> emitted == Take(Organization(o, Items(o.roots)), MAX_OBJECTS)
      ensures errs == [] <==>
        Complete(o.roots) && RootsListed(o, Items(o.roots)) && |Organization(o, Items(o.roots))| <= MAX_OBJECTS
    {
      hide Organization, RootsListed, RootsOf, OUsOf, AccountsOf;
      var roots := ListAll(o.roots);
      if roots.Err? {
        return [RootsFailed];
      }
      errs := WalkRoots(o, roots.value);
    }

    method WalkRoots(o: Oracle, roots: seq<Root>) returns (errs: seq<CollectionError>)
      requires Valid()
      modifies this
      ensures Valid()
      ensures emitted == old(emitted) + Take(Organization(o, roots), MAX_OBJECTS - |old(emitted)|)
      ensures errs == [] <==> RootsListed(o, roots) && |old(emitted)| + |Organization(o, roots)| <= MAX_OBJECTS
    {
      hide Preorder, AllListed, RootsOf, OUsOf, AccountsOf, Organization, RootsListed, Concat, Complete, Items;
      errs := [];
      assert roots[0..] == roots;
      for i := 0 to |roots|
        invariant Valid()
        invariant emitted + Take(Organization(o, roots[i..]), MAX_OBJECTS - |emitted|)
          == old(emitted) + Take(Organization(o, roots), MAX_OBJECTS - |old(emitted)|)
        invariant (errs == [] && RootsListed(o, roots[i..]) && |emitted| + |Organization(o, roots[i..])| <= MAX_OBJECTS)
          <==> (RootsListed(o, roots) && |old(emitted)| + |Organization(o, roots)| <= MAX_OBJECTS)
      {
        ghost var before := emitted;
        ghost var below, later := Preorder(o, roots[i].id, MAX_OU_DEPTH), Organization(o, roots[i + 1..]);
        RootsFrom(o, roots, i);
        if objectCount >= MAX_OBJECTS {
          errs := errs + [ExceededObjects];
          return;
        }
        Add(RootObject(roots[i]));
        var more := Walk(o, roots[i].id, 0);
        errs := errs + more;
        TakeThree(before, RootObject(roots[i]), below, later, MAX_OBJECTS);
      }
      assert roots[|roots|..] == [];
      NoRoots(o);
    }
  }

  lemma {:induction false} TakeThree(s: seq<Object>, x: Object, a: seq<Object>, b: seq<Object>, n: nat)
    requires |s| < n
    ensures var t := s + [x] + Take(a, n - |s| - 1);
      |t| <= n && s + Take([x] + a + b, n - |s|) == t + Take(b, n - |t|)
  {
    assert [x] + a + b == [x] + (a + b);
    TakeAppend([x], a + b, n - |s|);
    TakeAppend(a, b, n - |s| - 1);
  }

  // ----- what the walk collected

  function ContainerID(x: Object): Option<string> {
    match x
    case RootObject(root) => Some(root.id)
    case OUObject(ou, _) => Some(ou.id)
    case AccountObject(_, _) => None
  }

  ghost predicate HasContainer(s: seq<Object>, id: string, before: nat) {
    exists j :: 0 <= j < before && j < |s| && ContainerID(s[j]) == Some(id)
  }

  // Every unit and account comes after its parent, which is a root or a unit.
  ghost predicate ParentsFirst(s: seq<Object>) {
    forall i :: 0 <= i < |s| && !s[i].RootObject? ==> HasContainer(s, s[i].parent, i)
  }

  // The same, when a parent outside the sequence counts too.
  ghost predicate Under(s: seq<Object>, parent: string) {
    forall i :: 0 <= i < |s| && !s[i].RootObject? ==> s[i].parent == parent || HasContainer(s, s[i].parent, i)
  }

  lemma {:induction false} UnderAppend(a: seq<Object>, b: seq<Object>, parent: string)
    requires Under(a, parent) && Under(b, parent)
    ensures Under(a + b, parent)
  {
    var s := a + b;
    forall i | 0 <= i < |s| && !s[i].RootObject? && s[i].parent != parent ensures HasContainer(s, s[i].parent, i) {
      if i < |a| {
        assert HasContainer(a, a[i].parent, i);
        var j :| 0 <= j < i && j < |a| && ContainerID(a[j]) == Some(a[i].parent);
        assert s[j] == a[j];
      } else {
        var k := i - |a|;
        assert s[i] == b[k] && HasContainer(b, b[k].parent, k);
        var j :| 0 <= j < k && j < |b| && ContainerID(b[j]) == Some(b[k].parent);
        assert s[|a| + j] == b[j];
      }
    }
  }

  // A container followed by what lies under it.
  lemma {:induction false} UnderCons(x: Object, s: seq<Object>, id: string)
    requires ContainerID(x) == Some(id) && Under(s, id)
    ensures forall i :: 1 <= i < |[x] + s| && !([x] + s)[i].RootObject? ==> HasContainer([x] + s, ([x] + s)[i].parent, i)
  {
    var t := [x] + s;
    forall i | 1 <= i < |t| && !t[i].RootObject? ensures HasContainer(t, t[i].parent, i) {
      assert t[i] == s[i - 1];
      if s[i - 1].parent == id {
        assert ContainerID(t[0]) == Some(id);
      } else {
        assert HasContainer(s, s[i - 1].parent, i - 1);
        var j :| 0 <= j < i - 1 && j < |s| && ContainerID(s[j]) == Some(s[i - 1].parent);
        assert t[j + 1] == s[j];
      }
    }
  }

  lemma {:induction false} PreorderUnder(o: Oracle, parent: string, levels: nat)
    ensures Under(Preorder(o, parent, levels), parent)
    decreases levels, 1, 0
  {
    var direct := AccountObjects(Items(o.accounts(parent)), parent);
    if levels > 0 {
      UnitsUnder(o, Items(o.ous(parent)), parent, levels);
      UnderAppend(direct, Units(o, Items(o.ous(parent)), parent, levels), parent);
    }
  }

  lemma {:induction false} UnitsUnder(o: Oracle, ous: seq<OU>, parent: string, levels: nat)
    requires levels > 0
    ensures Under(Units(o, ous, parent, levels), parent)
    decreases levels, 0, |ous|
  {
    if ous != [] {
      var x, below := OUObject(ous[0], parent), Preorder(o, ous[0].id, levels - 1);
      PreorderUnder(o, ous[0].id, levels - 1);
      UnderCons(x, below, ous[0].id);
      assert Under([x] + below, parent);
      UnitsUnder(o, ous[1..], parent, levels);
      UnderAppend([x] + below, Units(o, ous[1..], parent, levels), parent);
    }
  }

  lemma {:induction false} OrganizationParents(o: Oracle, roots: seq<Root>)
    ensures ParentsFirst(Organization(o, roots))
  {
    if roots != [] {
      var x, below, later := RootObject(roots[0]), Preorder(o, roots[0].id, MAX_OU_DEPTH), Organization(o, roots[1..]);
      PreorderUnder(o, roots[0].id, MAX_OU_DEPTH);
      UnderCons(x, below, roots[0].id);
      assert ParentsFirst([x] + below);
      OrganizationParents(o, roots[1..]);
      ParentsAppend([x] + below, later);
    }
  }

  lemma {:induction false} ParentsAppend(a: seq<Object>, b: seq<Object>)
    requires ParentsFirst(a) && ParentsFirst(b)
    ensures ParentsFirst(a + b)
  {
    var s := a + b;
    forall i | 0 <= i < |s| && !s[i].RootObject? ensures HasContainer(s, s[i].parent, i) {
      if i < |a| {
        assert HasContainer(a, a[i].parent, i);
        var j :| 0 <= j < i && j < |a| && ContainerID(a[j]) == Some(a[i].parent);
        assert s[j] == a[j];
      } else {
        var k := i - |a|;
        assert s[i] == b[k] && HasContainer(b, b[k].parent, k);
        var j :| 0 <= j < k && j < |b| && ContainerID(b[j]) == Some(b[k].parent);
        assert s[|a| + j] == b[j];
      }
    }
  }

  lemma {:induction false} ParentsTaken(s: seq<Object>, n: nat)
    requires ParentsFirst(s)
    ensures ParentsFirst(Take(s, n))
  {
    var t := Take(s, n);
    forall i | 0 <= i < |t| && !t[i].RootObject? ensures HasContainer(t, t[i].parent, i) {
      assert HasContainer(s, s[i].parent, i);
      var j :| 0 <= j < i && j < |s| && ContainerID(s[j]) == Some(s[i].parent);
      assert t[j] == s[j];
    }
  }

  // ----- assets and relationships

  datatype MemberOf = MemberOf(from: string, to: string)

  lemma {:induction false} InInventory(s: seq<Object>, i: nat)
    requires i < |s|
    ensures match s[i]
      case RootObject(root) => root in RootsOf(s)
      case OUObject(ou, parent) => (ou, parent) in OUsOf(s)
      case AccountObject(account, parent) => (account, parent) in AccountsOf(s)
  {
    if i < |s| - 1 { InInventory(s[..|s| - 1], i); }
  }

  lemma {:induction false} FromEmitted(s: seq<Object>)
    ensures forall p :: p in OUsOf(s) ==> OUObject(p.0, p.1) in s
    ensures forall p :: p in AccountsOf(s) ==> AccountObject(p.0, p.1) in s
  {
    if s != [] {
      FromEmitted(s[..|s| - 1]);
      assert s == s[..|s| - 1] + [s[|s| - 1]];
    }
  }

  // A parent of a collected unit or account is a collected root or unit.
  lemma {:induction false} ParentCollected(s: seq<Object>, x: Object)
    requires ParentsFirst(s) && x in s && !x.RootObject?
    ensures (exists r :: r in RootsOf(s) && r.id == x.parent) || (exists p :: p in OUsOf(s) && p.0.id == x.parent)
  {
    var i :| 0 <= i < |s| && s[i] == x;
    assert HasContainer(s, x.parent, i);
    var j :| 0 <= j < i && j < |s| && ContainerID(s[j]) == Some(x.parent);
    InInventory(s, j);
    if s[j].OUObject? { assert (s[j].ou, s[j].parent) in OUsOf(s); }
  }

  function RootMembers(organization: string, roots: seq<Root>): seq<MemberOf> {
    seq(|roots|, i requires 0 <= i < |roots| => MemberOf(roots[i].id, organization))
  }

  function OUMembers(ous: seq<(OU, string)>): seq<MemberOf> {
    seq(|ous|, i requires 0 <= i < |ous| => MemberOf(ous[i].0.id, ous[i].1))
  }

  function AccountMembers(accounts: seq<(Account, string)>): seq<MemberOf> {
    seq(|accounts|, i requires 0 <= i < |accounts| => MemberOf(accounts[i].0.id, accounts[i].1))
  }

  // Every asset but the organization is a member of something.
  function AssetsOf(organization: string, members: seq<MemberOf>): seq<string> {
    [organization] + seq(|members|, i requires 0 <= i < |members| => members[i].from)
  }

  function Members(organization: string, roots: seq<Root>, ous: seq<(OU, string)>, accounts: seq<(Account, string)>): seq<MemberOf> {
    RootMembers(organization, roots) + OUMembers(ous) + AccountMembers(accounts)
  }

  // The native IDs of the assets and the memberships between them, list by list.
  method Assets(organization: string, roots: seq<Root>, ous: seq<(OU, string)>, accounts: seq<(Account, string)>)
      returns (assets: seq<string>, members: seq<MemberOf>)
    ensures members == Members(organization, roots, ous, accounts) && assets == AssetsOf(organization, members)
  {
    assets, members := [organization], [];
    for i := 0 to |roots|
      invariant members == RootMembers(organization, roots[..i]) && assets == AssetsOf(organization, members)
    {
      assets := assets + [roots[i].id];
      members := members + [MemberOf(roots[i].id, organization)];
    }
    assert roots[..|roots|] == roots;
    for i := 0 to |ous|
      invariant members == RootMembers(organization, roots) + OUMembers(ous[..i]) && assets == AssetsOf(organization, members)
    {
      assets := assets + [ous[i].0.id];
      members := members + [MemberOf(ous[i].0.id, ous[i].1)];
    }
    assert ous[..|ous|] == ous;
    for i := 0 to |accounts|
      invariant members == RootMembers(organization, roots) + OUMembers(ous) + AccountMembers(accounts[..i])
      invariant assets == AssetsOf(organization, members)
    {
      assets := assets + [accounts[i].0.id];
      members := members + [MemberOf(accounts[i].0.id, accounts[i].1)];
    }
    assert accounts[..|accounts|] == accounts;
  }

  // A root belongs to the organization, every other object to its parent.
  function MembershipOf(organization: string, x: Object): MemberOf {
    match x
    case RootObject(root) => MemberOf(root.id, organization)
    case OUObject(ou, parent) => MemberOf(ou.id, parent)
    case AccountObject(account, parent) => MemberOf(account.id, parent)
  }

  function Memberships(organization: string, s: seq<Object>): seq<MemberOf> {
    seq(|s|, i requires 0 <= i < |s| => MembershipOf(organization, s[i]))
  }

  lemma {:induction false} LastMembers(organization: string, s: seq<Object>)
    requires s != []
    ensures var before, x := s[..|s| - 1], s[|s| - 1]; var m := [MembershipOf(organization, x)];
      && RootMembers(organization, RootsOf(s)) == RootMembers(organization, RootsOf(before)) + (if x.RootObject? then m else [])
      && OUMembers(OUsOf(s)) == OUMembers(OUsOf(before)) + (if x.OUObject? then m else [])
      && AccountMembers(AccountsOf(s)) == AccountMembers(AccountsOf(before)) + (if x.AccountObject? then m else [])
  {
  }

  lemma {:induction false} InsertedOne<T>(a: seq<T>, b: seq<T>, c: seq<T>, all: seq<T>, m: T)
    requires multiset(a + b + c) == multiset(all)
    ensures multiset(a + [m] + b + c) == multiset(all + [m])
    ensures multiset(a + (b + [m]) + c) == multiset(all + [m])
    ensures multiset(a + b + (c + [m])) == multiset(all + [m])
  {
    assert multiset(a + b + c) == multiset(a) + multiset(b) + multiset(c);
    assert multiset(a + [m] + b + c) == multiset(a) + multiset{m} + multiset(b) + multiset(c);
    assert multiset(a + (b + [m]) + c) == multiset(a) + multiset(b) + multiset{m} + multiset(c);
    assert multiset(a + b + (c + [m])) == multiset(a) + multiset(b) + multiset(c) + multiset{m};
  }

  // THEOREM. The memberships are one for each collected object.
  lemma {:induction false} MembersExactly(organization: string, s: seq<Object>)
    ensures multiset(Members(organization, RootsOf(s), OUsOf(s), AccountsOf(s))) == multiset(Memberships(organization, s))
  {
    hide RootsOf, OUsOf, AccountsOf, RootMembers, OUMembers, AccountMembers, MembershipOf, Memberships;
    if s != [] {
      var before, m := s[..|s| - 1], MembershipOf(organization, s[|s| - 1]);
      MembersExactly(organization, before);
      LastMembers(organization, s);
      LastMembership(organization, s);
      InsertedOne(RootMembers(organization, RootsOf(before)), OUMembers(OUsOf(before)), AccountMembers(AccountsOf(before)),
                  Memberships(organization, before), m);
      SameEnds(RootMembers(organization, RootsOf(before)), OUMembers(OUsOf(before)), AccountMembers(AccountsOf(before)));
    } else {
      NoMembers(organization);
    }
  }

  lemma {:induction false} SameEnds<T>(a: seq<T>, b: seq<T>, c: seq<T>)
    ensures a + [] == a && b + [] == b && c + [] == c
  {
  }

  lemma {:induction false} LastMembership(organization: string, s: seq<Object>)
    requires s != []
    ensures Memberships(organization, s) == Memberships(organization, s[..|s| - 1]) + [MembershipOf(organization, s[|s| - 1])]
  {
  }

  lemma {:induction false} NoMembers(organization: string)
    ensures Members(organization, RootsOf([]), OUsOf([]), AccountsOf([])) == [] && Memberships(organization, []) == []
  {
  }

  // THEOREM. Both ends of every membership are collected assets.
  lemma {:induction false} EndpointsCollected(organization: string, s: seq<Object>, m: MemberOf)
    requires ParentsFirst(s) && m in Members(organization, RootsOf(s), OUsOf(s), AccountsOf(s))
    ensures var assets := AssetsOf(organization, Members(organization, RootsOf(s), OUsOf(s), AccountsOf(s)));
      m.from in assets && m.to in assets
  {
    hide ParentsFirst, RootsOf, OUsOf, AccountsOf;
    var roots, ous, accounts := RootsOf(s), OUsOf(s), AccountsOf(s);
    var members := Members(organization, roots, ous, accounts);
    var assets := AssetsOf(organization, members);
    var k :| 0 <= k < |members| && members[k] == m;
    assert assets[k + 1] in assets && assets[0] in assets;
    FromEmitted(s);
    if |roots| <= k < |roots| + |ous| {
      var p := ous[k - |roots|];
      assert p in ous;
      ParentAmongAssets(organization, s, OUObject(p.0, p.1));
    } else if |roots| + |ous| <= k {
      var p := accounts[k - |roots| - |ous|];
      assert p in accounts;
      ParentAmongAssets(organization, s, AccountObject(p.0, p.1));
    }
  }

  lemma {:induction false} ParentAmongAssets(organization: string, s: seq<Object>, x: Object)
    requires ParentsFirst(s) && x in s && !x.RootObject?
    ensures x.parent in AssetsOf(organization, Members(organization, RootsOf(s), OUsOf(s), AccountsOf(s)))
  {
    hide ParentsFirst, RootsOf, OUsOf, AccountsOf;
    var roots, ous, accounts := RootsOf(s), OUsOf(s), AccountsOf(s);
    var assets := AssetsOf(organization, Members(organization, roots, ous, accounts));
    ParentCollected(s, x);
    if r :| r in roots && r.id == x.parent {
      var k :| 0 <= k < |roots| && roots[k] == r;
      assert assets[k + 1] in assets;
    } else {
      var p :| p in ous && p.0.id == x.parent;
      var k :| 0 <= k < |ous| && ous[k] == p;
      assert assets[|roots| + k + 1] in assets;
    }
  }

  // THEOREM. A target's collection and its assets: the first MAX_OBJECTS of the organization,
  // every membership between two of its assets, and no error exactly if nothing within
  // the depth bound is missing.
  method Collect(organization: string, o: Oracle)
      returns (inv: Inventory, assets: seq<string>, members: seq<MemberOf>, errs: seq<CollectionError>)
    ensures fresh(inv) && inv.Valid()
    ensures Complete(o.roots) ==> inv.emitted == Take(Organization(o, Items(o.roots)), MAX_OBJECTS)
    ensures errs == [] <==>
      Complete(o.roots) && RootsListed(o, Items(o.roots)) && inv.emitted == Organization(o, Items(o.roots))
    ensures |assets| == 1 + inv.objectCount && |members| == inv.objectCount
    ensures multiset(members) == multiset(Memberships(organization, inv.emitted))
    ensures forall m :: m in members ==> m.from in assets && m.to in assets
  {
    hide Memberships, Preorder, RootsOf, OUsOf, AccountsOf, Organization, RootsListed, Complete, Items;
    inv := new Inventory();
    errs := inv.Discover(o);
    OrganizationParents(o, Items(o.roots));
    ParentsTaken(Organization(o, Items(o.roots)), MAX_OBJECTS);
    assets, members := Assets(organization, inv.roots, inv.ous, inv.accounts);
    MembersExactly(organization, inv.emitted);
    forall m | m in members ensures m.from in assets && m.to in assets {
      EndpointsCollected(organization, inv.emitted, m);
    }
  }

  // ----- the depth bound

  // No unit lies deeper than `levels` below a parent.
  predicate Within(o: Oracle, parent: string, levels: nat)
    decreases levels, 1, 0
  {
    if levels == 0 then Items(o.ous(parent)) == [] else UnitsWithin(o, Items(o.ous(parent)), levels)
  }

  predicate UnitsWithin(o: Oracle, ous: seq<OU>, levels: nat)
    requires levels > 0
    decreases levels, 0, |ous|
  {
    ous == [] || (Within(o, ous[0].id, levels - 1) && UnitsWithin(o, ous[1..], levels))
  }

  // Within the bound a greater bound gives the same objects.
  lemma {:induction false} BoundHidesNothing(o: Oracle, parent: string, levels: nat, more: nat)
    requires Within(o, parent, levels)
    ensures Preorder(o, parent, levels + more) == Preorder(o, parent, levels)
    decreases levels, 1, 0
  {
    if levels > 0 {
      UnitsBoundHidesNothing(o, Items(o.ous(parent)), parent, levels, more);
    }
  }

  lemma {:induction false} UnitsBoundHidesNothing(o: Oracle, ous: seq<OU>, parent: string, levels: nat, more: nat)
    requires levels > 0 && UnitsWithin(o, ous, levels)
    ensures Units(o, ous, parent, levels + more) == Units(o, ous, parent, levels)
    decreases levels, 0, |ous|
  {
    if ous != [] {
      BoundHidesNothing(o, ous[0].id, levels - 1, more);
      UnitsBoundHidesNothing(o, ous[1..], parent, levels, more);
    }
  }

  // Deeper walks only add objects, and add none exactly where no unit lies deeper.
  lemma {:induction false} DeeperLength(o: Oracle, parent: string, levels: nat, more: nat)
    requires more > 0
    ensures |Preorder(o, parent, levels)| <= |Preorder(o, parent, levels + more)|
    ensures |Preorder(o, parent, levels)| == |Preorder(o, parent, levels + more)| ==> Within(o, parent, levels)
    decreases levels, 1, 0
  {
    if levels > 0 {
      DeeperUnitsLength(o, Items(o.ous(parent)), parent, levels, more);
    }
  }

  lemma {:induction false} DeeperUnitsLength(o: Oracle, ous: seq<OU>, parent: string, levels: nat, more: nat)
    requires levels > 0 && more > 0
    ensures |Units(o, ous, parent, levels)| <= |Units(o, ous, parent, levels + more)|
    ensures |Units(o, ous, parent, levels)| == |Units(o, ous, parent, levels + more)| ==> UnitsWithin(o, ous, levels)
    decreases levels, 0, |ous|
  {
    if ous != [] {
      DeeperLength(o, ous[0].id, levels - 1, more);
      DeeperUnitsLength(o, ous[1..], parent, levels, more);
    }
  }

  // THEOREM (the depth bound, exactly). A greater bound collects the same exactly if no unit lies
  // deeper than the bound.
  lemma {:induction false} BoundHidesExactly(o: Oracle, parent: string, levels: nat, more: nat)
    requires more > 0
    ensures Preorder(o, parent, levels + more) == Preorder(o, parent, levels) <==> Within(o, parent, levels)
  {
    DeeperLength(o, parent, levels, more);
    if Within(o, parent, levels) { BoundHidesNothing(o, parent, levels, more); }
  }
}
