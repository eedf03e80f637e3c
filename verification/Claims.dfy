/**
 What a list of containers claims, and how claims split into routed names and
 conflicts (internal/discovery/discovery.go:91-132), as functions of the claims
 alone: no container order and no map order enters the result.
 */
module Claims {
  import opened Results
  import opened Strings
  import opened Protocol
  import opened Directories
  import opened Containers

  /** A usable container: its display name and the service it describes. */
  datatype Claim = Claim(owner: string, svc: Service)

  ghost function ClaimsOf(cs: seq<Container>, network: string): seq<Claim> {
    if cs == [] then []
    else
      var k := |cs| - 1;
      match ServiceOf(cs[k], network)
      case Ok(svc) => ClaimsOf(cs[..k], network) + [Claim(DisplayName(cs[k]), svc)]
      case Err(_) => ClaimsOf(cs[..k], network)
  }

  /** The containers that claim `n`, in list order. */
  ghost function Owners(claims: seq<Claim>, n: string): seq<string> {
    if claims == [] then []
    else
      var k := |claims| - 1;
      if claims[k].svc.name == n then Owners(claims[..k], n) + [claims[k].owner] else Owners(claims[..k], n)
  }

  ghost function ClaimedNames(claims: seq<Claim>): set<string> {
    set c <- claims :: c.svc.name
  }

  /** The service of the last container that claims `n`. */
  ghost function LastClaim(claims: seq<Claim>, n: string): Service
    requires n in ClaimedNames(claims)
  {
    var k := |claims| - 1;
    if claims[k].svc.name == n then claims[k].svc
    else
      assert claims == claims[..k] + [claims[k]];
      LastClaim(claims[..k], n)
  }

  ghost function RoutedNames(claims: seq<Claim>): set<string> {
    set n <- ClaimedNames(claims) | |Owners(claims, n)| == 1
  }

  ghost function ContestedNames(claims: seq<Claim>): set<string> {
    set n <- ClaimedNames(claims) | |Owners(claims, n)| >= 2
  }

  /** Names one container claims, with that container's service. */
  ghost function Routed(claims: seq<Claim>): Tier {
    map n <- RoutedNames(claims) :: LastClaim(claims, n)
  }

  /** Names two or more containers claim, each with its owners in order. */
  ghost function Contested(claims: seq<Claim>): map<string, Conflict> {
    map n <- ContestedNames(claims) :: Conflict(n, SortBy(Owners(claims, n), Self))
  }

  /** What `convert` returns: both lists in name order. */
  ghost function Converted(cs: seq<Container>, network: string): (seq<Service>, seq<Conflict>) {
    var claims := ClaimsOf(cs, network);
    (ByKey(Routed(claims)), ByKey(Contested(claims)))
  }

  // ------------------------------------------------------------- partition

  lemma {:induction false} LastClaimIsClaim(claims: seq<Claim>, n: string)
    requires n in ClaimedNames(claims)
    ensures LastClaim(claims, n).name == n
    ensures exists c <- claims :: c.svc == LastClaim(claims, n)
  {
    var k := |claims| - 1;
    assert claims == claims[..k] + [claims[k]];
    if claims[k].svc.name != n { LastClaimIsClaim(claims[..k], n); }
  }

  lemma {:induction false} ClaimedHasOwner(claims: seq<Claim>, n: string)
    ensures n in ClaimedNames(claims) <==> |Owners(claims, n)| >= 1
  {
    if claims != [] {
      var k := |claims| - 1;
      assert claims == claims[..k] + [claims[k]];
      ClaimedHasOwner(claims[..k], n);
    }
  }

  /** A name with one owner has one claim: whichever claim bears it is the one that is routed. */
  lemma {:induction false} SoleClaim(claims: seq<Claim>, n: string, c: Claim)
    requires c in claims && c.svc.name == n
    requires |Owners(claims, n)| == 1
    ensures n in ClaimedNames(claims) && LastClaim(claims, n) == c.svc
    ensures Owners(claims, n) == [c.owner]
  {
    var k := |claims| - 1;
    var init := claims[..k];
    assert claims == init + [claims[k]];
    ClaimedHasOwner(init, n);
    if claims[k].svc.name == n {
      assert c in init ==> n in ClaimedNames(init);
    } else {
      SoleClaim(init, n, c);
    }
  }

  lemma RoutedKeyed(claims: seq<Claim>)
    ensures Keyed(Routed(claims), ServiceName)
  {
    forall n <- RoutedNames(claims) ensures LastClaim(claims, n).name == n { LastClaimIsClaim(claims, n); }
  }

  lemma ContestedKeyed(claims: seq<Claim>)
    ensures Keyed(Contested(claims), ConflictName)
  {}

  /**
   The claims are partitioned exactly: a service is routed when its claim is the
   only one to its name, a name is a conflict when two or more claims bear it,
   every claimed name is one or the other, and both results are in strict name
   order.
   */
  lemma ConvertPartitions(cs: seq<Container>, network: string)
    ensures var claims := ClaimsOf(cs, network);
            var (services, conflicts) := Converted(cs, network);
            && StrictBy(services, ServiceName) && StrictBy(conflicts, ConflictName)
            && (forall s :: s in services <==>
                 exists c <- claims :: c.svc == s && Owners(claims, s.name) == [c.owner])
            && (forall x :: x in conflicts <==>
                 |Owners(claims, x.name)| >= 2 && x.owners == SortBy(Owners(claims, x.name), Self))
            && (forall n :: n in ClaimedNames(claims) <==>
                 (exists s <- services :: s.name == n) != (exists x <- conflicts :: x.name == n))
  {
    hide Owners, ClaimsOf, Routed, Contested, SortBy, Less;
    var claims := ClaimsOf(cs, network);
    var (services, conflicts) := Converted(cs, network);
    RoutedKeyed(claims);
    ContestedKeyed(claims);
    ByKeyStrict(Routed(claims), ServiceName);
    ByKeyStrict(Contested(claims), ConflictName);
    forall s ensures s in services <==> exists c <- claims :: c.svc == s && Owners(claims, s.name) == [c.owner] {
      RoutedIff(claims, s);
    }
    forall x ensures x in conflicts <==> |Owners(claims, x.name)| >= 2 && x.owners == SortBy(Owners(claims, x.name), Self) {
      ContestedIff(claims, x);
    }
    forall n ensures n in ClaimedNames(claims) <==>
                       (exists s <- services :: s.name == n) != (exists x <- conflicts :: x.name == n)
    {
      NamesSplit(claims, n);
    }
  }

  lemma RoutedIff(claims: seq<Claim>, s: Service)
    ensures s in ByKey(Routed(claims)) <==> exists c <- claims :: c.svc == s && Owners(claims, s.name) == [c.owner]
  {
    ByKeyElements(Routed(claims), s);
    ClaimedHasOwner(claims, s.name);
    RoutedKeyed(claims);
    if s in ByKey(Routed(claims)) {
      assert s.name in RoutedNames(claims) && LastClaim(claims, s.name) == s;
      LastClaimIsClaim(claims, s.name);
      var c :| c in claims && c.svc == s;
      SoleClaim(claims, s.name, c);
    }
    if c :| c in claims && c.svc == s && Owners(claims, s.name) == [c.owner] {
      SoleClaim(claims, s.name, c);
      assert s.name in Routed(claims) && Routed(claims)[s.name] == s;
    }
  }

  lemma ContestedIff(claims: seq<Claim>, x: Conflict)
    ensures x in ByKey(Contested(claims)) <==>
              |Owners(claims, x.name)| >= 2 && x.owners == SortBy(Owners(claims, x.name), Self)
  {
    ByKeyElements(Contested(claims), x);
    ClaimedHasOwner(claims, x.name);
    if |Owners(claims, x.name)| >= 2 && x.owners == SortBy(Owners(claims, x.name), Self) {
      assert x.name in Contested(claims) && Contested(claims)[x.name] == x;
    }
  }

  lemma NamesSplit(claims: seq<Claim>, n: string)
    ensures (exists s <- ByKey(Routed(claims)) :: s.name == n) <==> n in RoutedNames(claims)
    ensures (exists x <- ByKey(Contested(claims)) :: x.name == n) <==> n in ContestedNames(claims)
    ensures n in ClaimedNames(claims) <==> (n in RoutedNames(claims)) != (n in ContestedNames(claims))
  {
    ClaimedHasOwner(claims, n);
    RoutedKeyed(claims);
    if s :| s in ByKey(Routed(claims)) && s.name == n { ByKeyElements(Routed(claims), s); }
    if n in RoutedNames(claims) { ByKeyElements(Routed(claims), Routed(claims)[n]); }
    if x :| x in ByKey(Contested(claims)) && x.name == n { ByKeyElements(Contested(claims), x); }
    if n in ContestedNames(claims) { ByKeyElements(Contested(claims), Contested(claims)[n]); }
  }

  // ---------------------------------------------------------- conservation

  /** The owners of all the names in a set, counted together. */
  ghost function OwnersTotal(claims: seq<Claim>, names: set<string>): nat {
    if names == {} then 0 else
      var n := Least(names);
      |Owners(claims, n)| + OwnersTotal(claims, names - {n})
  }

  lemma {:induction false} TotalRemove(claims: seq<Claim>, names: set<string>, x: string)
    requires x in names
    ensures OwnersTotal(claims, names) == |Owners(claims, x)| + OwnersTotal(claims, names - {x})
  {
    var n := Least(names);
    if n != x {
      TotalRemove(claims, names - {n}, x);
      assert names - {n} - {x} == names - {x} - {n};
      var rest := names - {x};
      TotalRemove(claims, rest, n);
    }
  }

  lemma {:induction false} TotalUnion(claims: seq<Claim>, a: set<string>, b: set<string>)
    requires a !! b
    ensures OwnersTotal(claims, a + b) == OwnersTotal(claims, a) + OwnersTotal(claims, b)
  {
    if a == {} {
      assert a + b == b;
    } else {
      var x := Least(a);
      TotalUnion(claims, a - {x}, b);
      TotalRemove(claims, a + b, x);
      assert a + b - {x} == (a - {x}) + b;
    }
  }

  lemma {:induction false} TotalSame(a: seq<Claim>, b: seq<Claim>, names: set<string>)
    requires forall n <- names :: |Owners(a, n)| == |Owners(b, n)|
    ensures OwnersTotal(a, names) == OwnersTotal(b, names)
  {
    if names != {} { TotalSame(a, b, names - {Least(names)}); }
  }

  /** Every claim is counted under exactly one name. */
  lemma {:induction false} TotalIsAllClaims(claims: seq<Claim>, names: set<string>)
    requires ClaimedNames(claims) <= names
    ensures OwnersTotal(claims, names) == |claims|
  {
    if claims == [] {
      NoClaims(names);
    } else {
      var k := |claims| - 1;
      var init, n := claims[..k], claims[k].svc.name;
      assert claims == init + [claims[k]];
      assert claims[k] in claims;
      TotalIsAllClaims(init, names);
      TotalRemove(init, names, n);
      TotalRemove(claims, names, n);
      TotalSame(init, claims, names - {n});
    }
  }

  lemma {:induction false} NoClaims(names: set<string>)
    ensures OwnersTotal([], names) == 0
  {
    if names != {} { NoClaims(names - {Least(names)}); }
  }

  lemma {:induction false} TotalOfSingles(claims: seq<Claim>, names: set<string>)
    requires forall n <- names :: |Owners(claims, n)| == 1
    ensures OwnersTotal(claims, names) == |names|
  {
    if names != {} { TotalOfSingles(claims, names - {Least(names)}); }
  }

  /** The owners named over a list of conflicts. */
  ghost function OwnersNamed(conflicts: seq<Conflict>): nat {
    if conflicts == [] then 0 else |conflicts[0].owners| + OwnersNamed(conflicts[1..])
  }

  lemma {:induction false} OwnersNamedIsTotal(claims: seq<Claim>, names: set<string>, conflicts: seq<Conflict>)
    requires |conflicts| == |SortedSet(names)|
    requires forall i | 0 <= i < |conflicts| :: |conflicts[i].owners| == |Owners(claims, SortedSet(names)[i])|
    ensures OwnersNamed(conflicts) == OwnersTotal(claims, names)
  {
    hide SortedSet, Least, Owners, Less;
    if names != {} {
      SortedSetSplits(names);
      OwnersNamedIsTotal(claims, names - {Least(names)}, conflicts[1..]);
    }
  }

  // ----------------------------------------------------- container by container

  /** The containers that are services called `n`, by position. */
  ghost function Claimants(cs: seq<Container>, network: string, n: string): set<int> {
    set i | 0 <= i < |cs| && ServiceOf(cs[i], network).Ok? && ServiceOf(cs[i], network).value.name == n
  }

  /** Two different containers are services called `n`. */
  ghost predicate TwoClaim(cs: seq<Container>, network: string, n: string) {
    exists i, j :: i in Claimants(cs, network, n) && j in Claimants(cs, network, n) && i < j
  }

  /** Those among them that go by `owner`. */
  ghost function ClaimantsCalled(cs: seq<Container>, network: string, n: string, owner: string): set<int> {
    set i <- Claimants(cs, network, n) | DisplayName(cs[i]) == owner
  }

  lemma ClaimantsOneMore(cs: seq<Container>, network: string, n: string, owner: string)
    requires cs != []
    ensures var k := |cs| - 1;
            var own := ServiceOf(cs[k], network).Ok? && ServiceOf(cs[k], network).value.name == n;
            && Claimants(cs, network, n) == Claimants(cs[..k], network, n) + (if own then {k} else {})
            && ClaimantsCalled(cs, network, n, owner) ==
               ClaimantsCalled(cs[..k], network, n, owner) + (if own && DisplayName(cs[k]) == owner then {k} else {})
            && k !in Claimants(cs[..k], network, n) && k !in ClaimantsCalled(cs[..k], network, n, owner)
  {
    hide ServiceOf, DisplayName;
  }

  lemma OwnersOneMore(cs: seq<Container>, network: string, n: string)
    requires cs != []
    ensures var k := |cs| - 1;
            Owners(ClaimsOf(cs, network), n) ==
            Owners(ClaimsOf(cs[..k], network), n) +
            if ServiceOf(cs[k], network).Ok? && ServiceOf(cs[k], network).value.name == n then [DisplayName(cs[k])] else []
  {
    hide ServiceOf, DisplayName;
    var claims := ClaimsOf(cs[..|cs| - 1], network);
    var more := ClaimsOf(cs, network);
    if more != claims { assert more[..|more| - 1] == claims; }
  }

  lemma OneIn(s: set<int>, k: int, more: bool)
    requires k !in s
    ensures |s + (if more then {k} else {})| == |s| + if more then 1 else 0
  {
    assert s + {} == s;
  }

  lemma OneListed(s: seq<string>, x: string, more: bool, y: string)
    ensures var t := s + if more then [x] else [];
            |t| == |s| + (if more then 1 else 0) && multiset(t)[y] == multiset(s)[y] + if more && x == y then 1 else 0
  {
    assert s + [] == s;
  }

  lemma {:induction false} OwnersAreClaimants(cs: seq<Container>, network: string, n: string, owner: string)
    ensures |Owners(ClaimsOf(cs, network), n)| == |Claimants(cs, network, n)|
    ensures multiset(Owners(ClaimsOf(cs, network), n))[owner] == |ClaimantsCalled(cs, network, n, owner)|
  {
    if cs == [] {
      assert Claimants(cs, network, n) == {};
      assert ClaimantsCalled(cs, network, n, owner) == {};
    } else {
      hide ServiceOf, DisplayName, Claimants, ClaimantsCalled, Owners, ClaimsOf;
      var k := |cs| - 1;
      var own := ServiceOf(cs[k], network).Ok? && ServiceOf(cs[k], network).value.name == n;
      OwnersAreClaimants(cs[..k], network, n, owner);
      ClaimantsOneMore(cs, network, n, owner);
      OwnersOneMore(cs, network, n);
      OneIn(Claimants(cs[..k], network, n), k, own);
      OneIn(ClaimantsCalled(cs[..k], network, n, owner), k, own && DisplayName(cs[k]) == owner);
      OneListed(Owners(ClaimsOf(cs[..k], network), n), DisplayName(cs[k]), own, owner);
    }
  }

  lemma {:induction false} ClaimIsContainer(cs: seq<Container>, network: string, c: Claim)
    ensures c in ClaimsOf(cs, network) <==>
              exists i :: 0 <= i < |cs| && ServiceOf(cs[i], network) == Ok(c.svc) && DisplayName(cs[i]) == c.owner
  {
    hide ServiceOf, DisplayName;
    if cs != [] {
      var k := |cs| - 1;
      ClaimIsContainer(cs[..k], network, c);
      assert forall i | 0 <= i < k :: cs[..k][i] == cs[i];
    }
  }

  lemma OnlyOne(s: set<int>, i: int)
    requires i in s
    ensures |s| == 1 <==> s == {i}
  {
    var t := s - {i};
    assert s == t + {i} && |s| == |t| + 1;
  }

  lemma SomeOf(s: set<int>)
    requires |s| > 0
    ensures exists i :: i in s
  {
    assert (forall i :: i !in s) ==> s == {};
  }

  lemma TwoOf(s: set<int>)
    ensures |s| >= 2 <==> exists i, j :: i in s && j in s && i < j
  {
    if |s| >= 2 {
      SomeOf(s);
      var i :| i in s;
      var t := s - {i};
      assert s == t + {i} && |s| == |t| + 1;
      SomeOf(t);
      var j :| j in t;
      if i < j { assert i in s && j in s; } else { assert j in s && i in s; }
    }
    if i, j :| i in s && j in s && i < j {
      assert {i, j} <= s;
      assert s == {i, j} + (s - {i, j});
    }
  }

  /**
   The partition, said of the containers: a service is routed exactly when one
   container alone describes a service of that name, and it is that one; a name
   is in conflict exactly when two do, and its owners are what those containers
   are called, each as often as it occurs.
   */
  lemma ConvertOverContainers(cs: seq<Container>, network: string)
    ensures var (services, conflicts) := Converted(cs, network);
            && (forall s :: s in services <==>
                 exists i :: Claimants(cs, network, s.name) == {i} && ServiceOf(cs[i], network) == Ok(s))
            && (forall n :: (exists x <- conflicts :: x.name == n) <==> TwoClaim(cs, network, n))
            && (forall x <- conflicts, owner: string ::
                 multiset(x.owners)[owner] == |ClaimantsCalled(cs, network, x.name, owner)|)
            && (forall x <- conflicts :: AscendingBy(x.owners, Self))
  {
    ConvertPartitions(cs, network);
    hide ServiceOf, DisplayName, Converted, ClaimsOf, Owners, Less;
    var claims := ClaimsOf(cs, network);
    var (services, conflicts) := Converted(cs, network);
    forall s ensures s in services <==>
                       exists i :: Claimants(cs, network, s.name) == {i} && ServiceOf(cs[i], network) == Ok(s)
    {
      RoutedOverContainers(cs, network, s);
    }
    forall n ensures (exists x <- conflicts :: x.name == n) <==> TwoClaim(cs, network, n) {
      ContestedOverContainers(cs, network, n);
    }
    forall x <- conflicts, owner: string
      ensures multiset(x.owners)[owner] == |ClaimantsCalled(cs, network, x.name, owner)|
    {
      OwnersAreClaimants(cs, network, x.name, owner);
      SortSorts(Owners(claims, x.name), Self);
    }
    forall x <- conflicts ensures AscendingBy(x.owners, Self) { SortSorts(Owners(claims, x.name), Self); }
  }

  lemma ContestedOverContainers(cs: seq<Container>, network: string, n: string)
    ensures (exists x <- Converted(cs, network).1 :: x.name == n) <==> TwoClaim(cs, network, n)
  {
    ConvertPartitions(cs, network);
    OwnersAreClaimants(cs, network, n, "");
    TwoOf(Claimants(cs, network, n));
    hide ServiceOf, DisplayName, Converted, ClaimsOf, Owners, Claimants, Less, SortBy;
    var owners := Owners(ClaimsOf(cs, network), n);
    if |owners| >= 2 {
      var x := Conflict(n, SortBy(owners, Self));
      assert x in Converted(cs, network).1;
    }
  }

  lemma RoutedOverContainers(cs: seq<Container>, network: string, s: Service)
    ensures (exists c <- ClaimsOf(cs, network) :: c.svc == s && Owners(ClaimsOf(cs, network), s.name) == [c.owner]) <==>
              exists i :: Claimants(cs, network, s.name) == {i} && ServiceOf(cs[i], network) == Ok(s)
  {
    hide ServiceOf, DisplayName, ClaimsOf, Owners;
    var claims := ClaimsOf(cs, network);
    var who := Claimants(cs, network, s.name);
    OwnersAreClaimants(cs, network, s.name, "");
    if c :| c in claims && c.svc == s && Owners(claims, s.name) == [c.owner] {
      ClaimIsContainer(cs, network, c);
      var i :| 0 <= i < |cs| && ServiceOf(cs[i], network) == Ok(c.svc) && DisplayName(cs[i]) == c.owner;
      assert i in who;
      OnlyOne(who, i);
    }
    if i :| who == {i} && ServiceOf(cs[i], network) == Ok(s) {
      assert i in who;
      var c := Claim(DisplayName(cs[i]), s);
      ClaimIsContainer(cs, network, c);
      SoleClaim(claims, s.name, c);
    }
  }

  /** No usable container is lost or counted twice: each is one routed service or one named owner. */
  lemma ConvertConserves(cs: seq<Container>, network: string)
    ensures var (services, conflicts) := Converted(cs, network);
            |ClaimsOf(cs, network)| == |services| + OwnersNamed(conflicts)
  {
    var claims := ClaimsOf(cs, network);
    var r, x := RoutedNames(claims), ContestedNames(claims);
    forall n ensures n in ClaimedNames(claims) <==> n in r + x { ClaimedHasOwner(claims, n); }
    assert ClaimedNames(claims) == r + x;
    TotalIsAllClaims(claims, r + x);
    TotalUnion(claims, r, x);
    TotalOfSingles(claims, r);
    assert Routed(claims).Keys == r && Contested(claims).Keys == x;
    forall n <- Contested(claims) ensures |Contested(claims)[n].owners| == |Owners(claims, n)| {
      SortSorts(Owners(claims, n), Self);
    }
    OwnersNamedIsTotal(claims, x, ByKey(Contested(claims)));
  }

  // ------------------------------------------------------------ permutation

  lemma {:induction false} ClaimsAppend(a: seq<Container>, b: seq<Container>, network: string)
    ensures ClaimsOf(a + b, network) == ClaimsOf(a, network) + ClaimsOf(b, network)
  {
    hide ServiceOf, DisplayName;
    if b == [] {
      assert a + b == a;
    } else {
      var k := |b| - 1;
      ClaimsAppend(a, b[..k], network);
      assert (a + b)[..|a + b| - 1] == a + b[..k];
    }
  }

  lemma {:induction false} OwnersAppend(a: seq<Claim>, b: seq<Claim>, n: string)
    ensures Owners(a + b, n) == Owners(a, n) + Owners(b, n)
  {
    if b == [] {
      assert a + b == a;
    } else {
      var k := |b| - 1;
      OwnersAppend(a, b[..k], n);
      assert (a + b)[..|a + b| - 1] == a + b[..k];
    }
  }

  /** `s` without its element at `i`. */
  function Without<T>(s: seq<T>, i: nat): seq<T>
    requires i < |s|
  {
    s[..i] + s[i + 1..]
  }

  /** Two permutations of each other, with a common element taken out of both. */
  lemma TakeCommon<T>(a: seq<T>, b: seq<T>) returns (i: nat)
    requires a != [] && multiset(a) == multiset(b)
    ensures i < |b| && b[i] == a[|a| - 1]
    ensures multiset(a[..|a| - 1]) == multiset(Without(b, i))
    ensures b == b[..i] + [b[i]] + b[i + 1..]
  {
    var k := |a| - 1;
    TakeAt(a, k);
    assert Without(a, k) == a[..k];
    assert a[k] in multiset(a);
    i :| 0 <= i < |b| && b[i] == a[k];
    TakeAt(b, i);
    hide Without;
  }

  lemma TakeAt<T>(s: seq<T>, i: nat)
    requires i < |s|
    ensures s == s[..i] + [s[i]] + s[i + 1..]
    ensures multiset(Without(s, i)) == multiset(s) - multiset{s[i]}
  {
    assert s == s[..i] + [s[i]] + s[i + 1..];
    assert multiset(s) == multiset(s[..i]) + multiset{s[i]} + multiset(s[i + 1..]);
  }

  lemma {:induction false} PermutedClaims(a: seq<Container>, b: seq<Container>, network: string)
    requires multiset(a) == multiset(b)
    ensures multiset(ClaimsOf(a, network)) == multiset(ClaimsOf(b, network))
  {
    hide ClaimsOf;
    if a == [] {
      assert |multiset(a)| == |multiset(b)|;
    } else {
      var i := TakeCommon(a, b);
      var k := |a| - 1;
      PermutedClaims(a[..k], Without(b, i), network);
      ClaimsAppend(b[..i], b[i + 1..], network);
      ClaimsAppend(b[..i] + [b[i]], b[i + 1..], network);
      ClaimsAppend(b[..i], [b[i]], network);
      ClaimsAppend(a[..k], [a[k]], network);
      assert a == a[..k] + [a[k]];
    }
  }

  lemma {:induction false} PermutedOwners(a: seq<Claim>, b: seq<Claim>, n: string)
    requires multiset(a) == multiset(b)
    ensures multiset(Owners(a, n)) == multiset(Owners(b, n))
  {
    hide Owners;
    if a == [] {
      assert |multiset(a)| == |multiset(b)|;
    } else {
      var i := TakeCommon(a, b);
      var k := |a| - 1;
      PermutedOwners(a[..k], Without(b, i), n);
      OwnersAppend(b[..i], b[i + 1..], n);
      OwnersAppend(b[..i] + [b[i]], b[i + 1..], n);
      OwnersAppend(b[..i], [b[i]], n);
      OwnersAppend(a[..k], [a[k]], n);
      assert a == a[..k] + [a[k]];
    }
  }

  lemma PermutedElements(a: seq<Claim>, b: seq<Claim>)
    requires multiset(a) == multiset(b)
    ensures forall c :: c in a <==> c in b
    ensures ClaimedNames(a) == ClaimedNames(b)
    ensures forall n :: |Owners(a, n)| == |Owners(b, n)|
    ensures forall n :: SortBy(Owners(a, n), Self) == SortBy(Owners(b, n), Self)
  {
    forall c ensures c in a <==> c in b {
      assert c in a <==> c in multiset(a);
      assert c in b <==> c in multiset(b);
    }
    forall n ensures |Owners(a, n)| == |Owners(b, n)| && SortBy(Owners(a, n), Self) == SortBy(Owners(b, n), Self) {
      PermutedOwners(a, b, n);
      assert |multiset(Owners(a, n))| == |multiset(Owners(b, n))|;
      SortStringsCanonical(Owners(a, n), Owners(b, n));
    }
  }

  /** The whole output, owners included, does not depend on the order Docker lists the containers in. */
  lemma ConvertIgnoresOrder(a: seq<Container>, b: seq<Container>, network: string)
    requires multiset(a) == multiset(b)
    ensures Converted(a, network) == Converted(b, network)
  {
    hide ClaimsOf, Owners, SortBy, Less;
    var ca, cb := ClaimsOf(a, network), ClaimsOf(b, network);
    PermutedClaims(a, b, network);
    PermutedElements(ca, cb);
    forall n <- RoutedNames(ca) ensures LastClaim(ca, n) == LastClaim(cb, n) {
      LastClaimIsClaim(ca, n);
      var c :| c in ca && c.svc == LastClaim(ca, n);
      SoleClaim(ca, n, c);
      SoleClaim(cb, n, c);
    }
    assert RoutedNames(ca) == RoutedNames(cb) && ContestedNames(ca) == ContestedNames(cb);
    assert Routed(ca) == Routed(cb);
    assert Contested(ca) == Contested(cb);
  }

  // ------------------------------------------------ into the directory

  lemma {:induction false} ClaimsAcceptable(cs: seq<Container>, network: string)
    ensures forall c <- ClaimsOf(cs, network) :: Acceptable(c.svc) && c.svc.source == SourceDocker
  {
    if cs != [] {
      var k := |cs| - 1;
      ClaimsAcceptable(cs[..k], network);
      if ServiceOf(cs[k], network).Ok? { ServiceOfAcceptable(cs[k], network); }
    }
  }

  lemma RoutedAcceptable(cs: seq<Container>, network: string)
    ensures TierSound(Routed(ClaimsOf(cs, network)), SourceDocker)
  {
    var claims := ClaimsOf(cs, network);
    ClaimsAcceptable(cs, network);
    forall n <- RoutedNames(claims)
      ensures Acceptable(LastClaim(claims, n)) && LastClaim(claims, n).source == SourceDocker && LastClaim(claims, n).name == n
    {
      LastClaimIsClaim(claims, n);
    }
  }

  lemma ContestedValid(cs: seq<Container>, network: string)
    ensures var x := Contested(ClaimsOf(cs, network));
            forall n <- x :: Valid(n) && x[n].name == n
  {
    var claims := ClaimsOf(cs, network);
    ClaimsAcceptable(cs, network);
    forall n <- ContestedNames(claims) ensures Valid(n) {
      var c :| c in claims && c.svc.name == n;
    }
  }
}
