/**
 The discovery loop (internal/discovery/discovery.go): `convert`, its log
 bookkeeping, and the polling state machine that skips redundant clears.
 */
module Discovery {
  import opened Results
  import opened Strings
  import opened Protocol
  import opened Directories
  import opened Registries
  import opened Containers
  import opened Claims
  import Runs = DirectoryRuns

  datatype LogLine =
    | Unavailable
    | AvailableAgain
    | Ignoring(container: string, cause: SkipCause)
    | NotRouted(conflict: Conflict)
    | NoLonger(name: string)

  // ------------------------------------------------------ what a poll stores

  lemma CollectSorted(t: Tier, source: string)
    requires TierSound(t, source)
    ensures Collect(ByKey(t), source, true) == t
  {
    hide Acceptable;
    Runs.CollectListed(t, source);
    assert Runs.Attributed(t, source) == t;
  }

  lemma {:induction false} CollectConflictsDistinct(conflicts: seq<Conflict>)
    requires forall x <- conflicts :: Valid(x.name)
    requires DistinctKeys(conflicts, ConflictName)
    ensures forall x <- conflicts :: x.name in CollectConflicts(conflicts) && CollectConflicts(conflicts)[x.name] == x
    ensures forall n <- CollectConflicts(conflicts) :: exists x <- conflicts :: x.name == n
  {
    hide ValidateName, NormalizeName;
    if conflicts != [] {
      var k := |conflicts| - 1;
      var init, last := conflicts[..k], conflicts[k];
      assert conflicts == init + [last];
      assert last in conflicts;
      forall i, j | 0 <= i < j < |init| ensures ConflictName(init[i]) != ConflictName(init[j]) {
        assert ConflictName(conflicts[i]) != ConflictName(conflicts[j]);
      }
      CollectConflictsDistinct(init);
      ValidIsNormal(last.name);
      assert last.(name := NormalizeName(last.name)) == last;
      forall x <- init ensures x.name != last.name {
        var i :| 0 <= i < |init| && init[i] == x;
        assert ConflictName(conflicts[i]) != ConflictName(conflicts[k]);
      }
    }
  }

  lemma CollectSortedConflicts(m: map<string, Conflict>)
    requires forall n <- m :: Valid(n) && m[n].name == n
    ensures CollectConflicts(ByKey(m)) == m
  {
    hide CollectConflicts, Valid, ByKey, Less;
    var list := ByKey(m);
    ByKeyStrict(m, ConflictName);
    Runs.StrictHasDistinctKeys(list, ConflictName);
    forall x ensures x in list <==> x.name in m && m[x.name] == x { ByKeyElements(m, x); }
    CollectConflictsDistinct(list);
    var got := CollectConflicts(list);
    forall n ensures n in got <==> n in m
             ensures n in got && n in m ==> got[n] == m[n]
    {
      if n in m { assert m[n] in list; }
    }
  }

  lemma RoutedNotContested(claims: seq<Claim>)
    ensures Routed(claims).Keys !! Contested(claims).Keys
  {}

  lemma StoredAsIs(d: Directory, services: seq<Service>, conflicts: seq<Conflict>, r: Tier, x: map<string, Conflict>)
    requires Collect(services, SourceDocker, true) == r && CollectConflicts(conflicts) == x
    requires r.Keys !! x.Keys
    ensures SetDocker(d, services, conflicts) == d.(docker := r, conflicts := x)
  {
    assert r - x.Keys == r;
  }

  /** SetDocker drops nothing `convert` produced: both tiers are stored as they are. */
  lemma ConvertedIsStored(d: Directory, cs: seq<Container>, network: string)
    ensures var claims := ClaimsOf(cs, network);
            var (services, conflicts) := Converted(cs, network);
            SetDocker(d, services, conflicts) == d.(docker := Routed(claims), conflicts := Contested(claims))
  {
    hide Acceptable, Valid;
    var claims := ClaimsOf(cs, network);
    RoutedAcceptable(cs, network);
    ContestedValid(cs, network);
    CollectSorted(Routed(claims), SourceDocker);
    CollectSortedConflicts(Contested(claims));
    RoutedNotContested(claims);
    StoredAsIs(d, ByKey(Routed(claims)), ByKey(Contested(claims)), Routed(claims), Contested(claims));
  }

  // ------------------------------------------------------- the polling loop

  /** One poll's answer from Docker, or the failure to get one. */
  type Answer = Option<seq<Container>>

  datatype Event = Poll(answer: Answer) | Other(op: Runs.Op)

  predicate Foreign(ev: Event) { ev.Other? ==> !ev.op.OpSetDocker? }

  /** The polling loop's state and the directory it writes to. */
  datatype Loop = Loop(dir: Directory, available: bool)

  const Start := Loop(EmptyDirectory, true)

  /** What one poll does, as the code does it: a repeated failure writes nothing. */
  ghost function Step(s: Loop, network: string, ev: Event): Loop {
    match ev
    case Other(op) => s.(dir := Runs.After(s.dir, op))
    case Poll(None) => if s.available then Loop(SetDocker(s.dir, [], []), false) else s
    case Poll(Some(cs)) => Loop(SetDocker(s.dir, Converted(cs, network).0, Converted(cs, network).1), true)
  }

  ghost function Steps(s: Loop, network: string, evs: seq<Event>): Loop {
    if evs == [] then s else Step(Steps(s, network, evs[..|evs| - 1]), network, evs[|evs| - 1])
  }

  /** The simple loop: every poll replaces the Docker tier, a failed one with nothing. */
  ghost function SimpleStep(d: Directory, network: string, ev: Event): Directory {
    match ev
    case Other(op) => Runs.After(d, op)
    case Poll(answer) =>
      var claims := if answer.Some? then ClaimsOf(answer.value, network) else [];
      d.(docker := Routed(claims), conflicts := Contested(claims))
  }

  ghost function SimpleSteps(d: Directory, network: string, evs: seq<Event>): Directory {
    if evs == [] then d else SimpleStep(SimpleSteps(d, network, evs[..|evs| - 1]), network, evs[|evs| - 1])
  }

  lemma NothingClaimed()
    ensures Routed([]) == map[] && Contested([]) == map[]
  {
    assert ClaimedNames([]) == {};
    assert RoutedNames([]) == {} && ContestedNames([]) == {};
  }

  /** Skipping the writes of repeated failures is unobservable: the directory is the simple loop's after every run. */
  lemma {:induction false} PollingRefinesSimple(evs: seq<Event>, network: string)
    requires forall ev <- evs :: Foreign(ev)
    ensures var s := Steps(Start, network, evs);
            && s.dir == SimpleSteps(EmptyDirectory, network, evs)
            && (!s.available ==> s.dir.docker == map[] && s.dir.conflicts == map[])
  {
    if evs != [] {
      var init, ev := evs[..|evs| - 1], evs[|evs| - 1];
      assert forall e <- init :: e in evs;
      PollingRefinesSimple(init, network);
      var s := Steps(Start, network, init);
      NothingClaimed();
      match ev
      case Other(op) => assert ev in evs; Runs.StepFrame(s.dir, op, "");
      case Poll(None) => ClearsDocker(s.dir);
      case Poll(Some(cs)) => ConvertedIsStored(s.dir, cs, network);
    }
  }

  lemma ClearsDocker(d: Directory)
    ensures SetDocker(d, [], []) == d.(docker := map[], conflicts := map[])
  {
    var none: Tier := map[];
    assert none - {} == none;
  }

  function Polled(polls: seq<Answer>): seq<Event> { seq(|polls|, i requires 0 <= i < |polls| => Event.Poll(polls[i])) }

  function LastPoll(evs: seq<Event>): Option<Answer> {
    if evs == [] then None
    else
      var ev := evs[|evs| - 1];
      if ev.Poll? then Some(ev.answer) else LastPoll(evs[..|evs| - 1])
  }

  /** The claims of the last poll's list: none before the first poll, and none when it failed. */
  ghost function LastClaims(evs: seq<Event>, network: string): seq<Claim> {
    var last := LastPoll(evs);
    if last.Some? && last.value.Some? then ClaimsOf(last.value.value, network) else []
  }

  lemma {:induction false} SimpleIsLastPoll(evs: seq<Event>, network: string)
    requires forall ev <- evs :: Foreign(ev)
    ensures var d := SimpleSteps(EmptyDirectory, network, evs);
            d.docker == Routed(LastClaims(evs, network)) && d.conflicts == Contested(LastClaims(evs, network))
  {
    NothingClaimed();
    if evs != [] {
      var init := evs[..|evs| - 1];
      assert evs[|evs| - 1] in evs;
      assert forall e <- init :: e in evs;
      SimpleIsLastPoll(init, network);
      if evs[|evs| - 1].Other? { Runs.StepFrame(SimpleSteps(EmptyDirectory, network, init), evs[|evs| - 1].op, ""); }
    }
  }

  /** After any run the Docker tier and the conflicts are `convert` of the last list, and empty if the last poll failed. */
  lemma DockerTierIsLastPoll(evs: seq<Event>, network: string)
    requires forall ev <- evs :: Foreign(ev)
    ensures var d := Steps(Start, network, evs).dir;
            d.docker == Routed(LastClaims(evs, network)) && d.conflicts == Contested(LastClaims(evs, network))
  {
    PollingRefinesSimple(evs, network);
    SimpleIsLastPoll(evs, network);
  }

  // ---------------------------------------------------- the conflict messages

  /** The conflict messages about `n`, in order: true for "not routed", false for "no longer in conflict". */
  function Marks(log: seq<LogLine>, n: string): seq<bool> {
    if log == [] then []
    else
      var k := |log| - 1;
      var before := Marks(log[..k], n);
      match log[k]
      case NotRouted(conflict) => if conflict.name == n then before + [true] else before
      case NoLonger(name) => if name == n then before + [false] else before
      case _ => before
  }

  /** What one poll says about a name, given whether it was and whether it is now in conflict. */
  function News(was: bool, now: bool): seq<bool> {
    if was == now then [] else [now]
  }

  /** "Not routed" first, then strictly alternating. */
  ghost predicate Alternates(marks: seq<bool>) {
    forall i :: 0 <= i < |marks| ==> marks[i] == (i % 2 == 0)
  }

  /** Whether the last word on a name was "not routed". */
  predicate LastNotRouted(marks: seq<bool>) { marks != [] && marks[|marks| - 1] }

  lemma AlternatesOn(marks: seq<bool>, was: bool, now: bool)
    requires Alternates(marks) && LastNotRouted(marks) == was
    ensures Alternates(marks + News(was, now)) && LastNotRouted(marks + News(was, now)) == now
  {
    assert was <==> |marks| % 2 == 1;
  }

  /** The names in conflict after a run of polls: a failed poll changes nothing. */
  ghost function ConflictedAfter(polls: seq<Answer>, network: string): set<string> {
    if polls == [] then {}
    else match polls[|polls| - 1]
      case None => ConflictedAfter(polls[..|polls| - 1], network)
      case Some(cs) => ContestedNames(ClaimsOf(cs, network))
  }

  /** Everything a run of polls says about one name. */
  ghost function Said(polls: seq<Answer>, network: string, n: string): seq<bool> {
    if polls == [] then []
    else
      var init := polls[..|polls| - 1];
      Said(init, network, n) + News(n in ConflictedAfter(init, network), n in ConflictedAfter(polls, network))
  }

  /** Over any run of polls, failing ones included, the messages about a name alternate and the last one is true. */
  lemma {:induction false} MessagesAlternate(polls: seq<Answer>, network: string, n: string)
    ensures Alternates(Said(polls, network, n))
    ensures n in ConflictedAfter(polls, network) <==> LastNotRouted(Said(polls, network, n))
  {
    if polls != [] {
      var init := polls[..|polls| - 1];
      MessagesAlternate(init, network, n);
      AlternatesOn(Said(init, network, n), n in ConflictedAfter(init, network), n in ConflictedAfter(polls, network));
    }
  }

  // ----------------------------------------------------------- the skip notes

  /** The container names `convert` found usable. */
  ghost function SeenNames(cs: seq<Container>, network: string): set<string> {
    set c <- cs | ServiceOf(c, network).Ok? :: DisplayName(c)
  }

  /** The skip notes after `convert` has walked the containers, before it forgets the usable ones. */
  ghost function Noted(cs: seq<Container>, network: string, skipped: map<string, SkipCause>): map<string, SkipCause> {
    if cs == [] then skipped
    else
      var k := |cs| - 1;
      var before := Noted(cs[..k], network, skipped);
      match ServiceOf(cs[k], network)
      case Ok(_) => before
      case Err(cause) => if cause.NotCoreNet? then before else before[DisplayName(cs[k]) := cause]
  }

  ghost function SkipsAfter(cs: seq<Container>, network: string, skipped: map<string, SkipCause>): map<string, SkipCause> {
    Noted(cs, network, skipped) - SeenNames(cs, network)
  }

  /** The reasons logged about the container `x`, in order. */
  function SkipLines(log: seq<LogLine>, x: string): seq<SkipCause> {
    if log == [] then []
    else
      var k := |log| - 1;
      var before := SkipLines(log[..k], x);
      if log[k].Ignoring? && log[k].container == x then before + [log[k].cause] else before
  }

  /** What walking the containers adds to the reasons logged about `x`: each one that differs from the note before it. */
  ghost function NewSkips(cs: seq<Container>, network: string, skipped: map<string, SkipCause>, x: string): seq<SkipCause> {
    if cs == [] then []
    else
      var k := |cs| - 1;
      var before := Noted(cs[..k], network, skipped);
      match ServiceOf(cs[k], network)
      case Ok(_) => NewSkips(cs[..k], network, skipped, x)
      case Err(cause) =>
        if DisplayName(cs[k]) != x || cause.NotCoreNet? || (x in before && before[x] == cause)
        then NewSkips(cs[..k], network, skipped, x)
        else NewSkips(cs[..k], network, skipped, x) + [cause]
  }

  /** The reasons told about `x` while its note went from `was` to `now`: none twice running, and the last is the note kept. */
  ghost predicate ToldOnce(told: seq<SkipCause>, was: map<string, SkipCause>, now: map<string, SkipCause>, x: string) {
    && (forall i, j :: 0 <= i && j == i + 1 < |told| ==> told[i] != told[j])
    && (told != [] && x in was ==> told[0] != was[x])
    && (told == [] ==> (x in now <==> x in was) && (x in was ==> now[x] == was[x]))
    && (told != [] ==> x in now && now[x] == told[|told| - 1])
  }

  lemma ToldOnceMore(a: seq<SkipCause>, b: seq<SkipCause>, x: string,
                     was: map<string, SkipCause>, mid: map<string, SkipCause>, now: map<string, SkipCause>)
    requires ToldOnce(a, was, mid, x) && ToldOnce(b, mid, now, x)
    ensures ToldOnce(a + b, was, now, x)
  {
    if a == [] || b == [] {
      assert a + b == if a == [] then b else a;
    } else {
      assert (a + b)[|a + b| - 1] == b[|b| - 1] && (a + b)[0] == a[0];
    }
  }

  /** No reason is logged twice running, and the note on `x` is the last one logged. */
  lemma {:induction false} SkipsAreToldOnce(cs: seq<Container>, network: string, skipped: map<string, SkipCause>, x: string)
    ensures ToldOnce(NewSkips(cs, network, skipped, x), skipped, Noted(cs, network, skipped), x)
  {
    hide ServiceOf, DisplayName;
    if cs != [] { SkipsAreToldOnce(cs[..|cs| - 1], network, skipped, x); }
  }

  /** Container `i` is skipped for a reason worth telling. */
  ghost predicate SkippedFor(cs: seq<Container>, network: string, i: nat, x: string, cause: SkipCause) {
    i < |cs| && ServiceOf(cs[i], network) == Err(cause) && !cause.NotCoreNet? && DisplayName(cs[i]) == x
  }

  /** `x` goes unskipped from container `i` on. */
  ghost predicate NotSkippedFrom(cs: seq<Container>, network: string, i: int, x: string) {
    forall j: nat, cause :: i <= j ==> !SkippedFor(cs, network, j, x, cause)
  }

  /** The note on `x` is the reason its last skipped container was skipped for, and without one it is as before. */
  lemma {:induction false} NoteIsLastSkip(cs: seq<Container>, network: string, skipped: map<string, SkipCause>, x: string)
    ensures var noted := Noted(cs, network, skipped);
            && (forall i: nat, cause :: SkippedFor(cs, network, i, x, cause) && NotSkippedFrom(cs, network, i + 1, x)
                  ==> x in noted && noted[x] == cause)
            && (NotSkippedFrom(cs, network, 0, x) ==> (x in noted <==> x in skipped) && (x in noted ==> noted[x] == skipped[x]))
  {
    hide SkippedFor, NotSkippedFrom, Noted;
    if cs == [] {
      NothingSkipped(network, skipped, x);
    } else {
      var k := |cs| - 1;
      var init := cs[..k];
      NoteIsLastSkip(init, network, skipped, x);
      NoteOneMore(cs, network, skipped, x);
      SkipsUpToLast(cs, network, x);
      forall i: nat, cause | SkippedFor(cs, network, i, x, cause) && NotSkippedFrom(cs, network, i + 1, x)
        ensures x in Noted(cs, network, skipped) && Noted(cs, network, skipped)[x] == cause
      {
        SkipInRange(cs, network, i, x, cause);
        if i < k { assert SkippedFor(init, network, i, x, cause) && NotSkippedFrom(init, network, i + 1, x); }
      }
      if NotSkippedFrom(cs, network, 0, x) { assert NotSkippedFrom(init, network, 0, x); }
    }
  }

  lemma NothingSkipped(network: string, skipped: map<string, SkipCause>, x: string)
    ensures Noted([], network, skipped) == skipped
    ensures forall i: nat, cause :: !SkippedFor([], network, i, x, cause)
  {}

  lemma SkipsUpToLast(cs: seq<Container>, network: string, x: string)
    requires cs != []
    ensures var k := |cs| - 1;
            && (forall i: nat, cause | i < k ::
                  SkippedFor(cs[..k], network, i, x, cause) <==> SkippedFor(cs, network, i, x, cause))
            && (forall i: nat | i <= k && NotSkippedFrom(cs, network, i, x) ::
                  NotSkippedFrom(cs[..k], network, i, x) && forall cause :: !SkippedFor(cs, network, k, x, cause))
  {
    hide ServiceOf, DisplayName;
    var k := |cs| - 1;
    var init := cs[..k];
    forall i: nat, cause | i < k ensures SkippedFor(init, network, i, x, cause) <==> SkippedFor(cs, network, i, x, cause) {
      assert init[i] == cs[i];
    }
    forall i: nat | i <= k && NotSkippedFrom(cs, network, i, x) ensures NotSkippedFrom(init, network, i, x) {
      forall j: nat, cause | i <= j ensures !SkippedFor(init, network, j, x, cause) {
        assert !SkippedFor(cs, network, j, x, cause);
      }
    }
  }

  lemma SkipInRange(cs: seq<Container>, network: string, i: nat, x: string, cause: SkipCause)
    requires SkippedFor(cs, network, i, x, cause)
    ensures i < |cs|
  {}

  lemma NoteOneMore(cs: seq<Container>, network: string, skipped: map<string, SkipCause>, x: string)
    requires cs != []
    ensures var k := |cs| - 1;
            var noted, before := Noted(cs, network, skipped), Noted(cs[..k], network, skipped);
            && (forall cause :: SkippedFor(cs, network, k, x, cause) ==> x in noted && noted[x] == cause)
            && ((forall cause :: !SkippedFor(cs, network, k, x, cause)) ==>
                 (x in noted <==> x in before) && (x in noted ==> noted[x] == before[x]))
  {
    hide ServiceOf, DisplayName;
    var k := |cs| - 1;
    if ServiceOf(cs[k], network).Err? {
      var cause := ServiceOf(cs[k], network).error;
      assert SkippedFor(cs, network, k, x, cause) <==> !cause.NotCoreNet? && DisplayName(cs[k]) == x;
    }
  }

  /** A poll forgets the containers it finds usable, and only them, so that the next skip of one is told again. */
  lemma UsableIsForgotten(cs: seq<Container>, network: string, skipped: map<string, SkipCause>, x: string)
    ensures var notes, noted := SkipsAfter(cs, network, skipped), Noted(cs, network, skipped);
            && (x in notes <==>
                 x in noted && forall i :: 0 <= i < |cs| && DisplayName(cs[i]) == x ==> ServiceOf(cs[i], network).Err?)
            && (x in notes ==> notes[x] == noted[x])
  {
    hide ServiceOf, DisplayName, Noted;
    if i :| 0 <= i < |cs| && DisplayName(cs[i]) == x && ServiceOf(cs[i], network).Ok? { assert cs[i] in cs; }
  }

  /** What has no note is told as soon as it is skipped. */
  lemma {:induction false} FirstSkipIsTold(cs: seq<Container>, network: string, skipped: map<string, SkipCause>, x: string,
                                           i: nat, cause: SkipCause)
    requires x !in skipped && SkippedFor(cs, network, i, x, cause)
    ensures NewSkips(cs, network, skipped, x) != []
  {
    hide ServiceOf, DisplayName;
    var k := |cs| - 1;
    if i < k {
      assert SkippedFor(cs[..k], network, i, x, cause);
      FirstSkipIsTold(cs[..k], network, skipped, x, i, cause);
    } else {
      SkipsAreToldOnce(cs[..k], network, skipped, x);
    }
  }

  /** The skip notes after a run of polls that started with the notes `skipped`. */
  ghost function NotesAfter(polls: seq<Answer>, network: string, skipped: map<string, SkipCause>): map<string, SkipCause> {
    if polls == [] then skipped
    else
      var before := NotesAfter(polls[..|polls| - 1], network, skipped);
      match polls[|polls| - 1]
      case None => before
      case Some(cs) => SkipsAfter(cs, network, before)
  }

  /** The reasons a run of polls logs about the container `x`. */
  ghost function SkipsTold(polls: seq<Answer>, network: string, skipped: map<string, SkipCause>, x: string): seq<SkipCause> {
    if polls == [] then []
    else
      var init := polls[..|polls| - 1];
      SkipsTold(init, network, skipped, x) +
      match polls[|polls| - 1]
      case None => []
      case Some(cs) => NewSkips(cs, network, NotesAfter(init, network, skipped), x)
  }

  /** Over any run of polls in which `x` never becomes usable, failed ones included, no reason is logged twice running. */
  lemma {:induction false} RunsTellSkipsOnce(polls: seq<Answer>, network: string, skipped: map<string, SkipCause>, x: string)
    requires forall i :: 0 <= i < |polls| && polls[i].Some? ==> x !in SeenNames(polls[i].value, network)
    ensures ToldOnce(SkipsTold(polls, network, skipped, x), skipped, NotesAfter(polls, network, skipped), x)
  {
    hide SeenNames, Noted, NewSkips, ToldOnce;
    if polls == [] {
      NothingTold(skipped, x);
    } else {
      var k := |polls| - 1;
      var mid := NotesAfter(polls[..k], network, skipped);
      RunsTellSkipsOnce(polls[..k], network, skipped, x);
      match polls[k]
      case None => assert SkipsTold(polls, network, skipped, x) == SkipsTold(polls[..k], network, skipped, x);
      case Some(cs) =>
        SkipsAreToldOnce(cs, network, mid, x);
        SameNoteSameTelling(NewSkips(cs, network, mid, x), mid, Noted(cs, network, mid), SkipsAfter(cs, network, mid), x);
        ToldOnceMore(SkipsTold(polls[..k], network, skipped, x), NewSkips(cs, network, mid, x), x, skipped, mid,
                     SkipsAfter(cs, network, mid));
    }
  }

  lemma NothingTold(notes: map<string, SkipCause>, x: string)
    ensures ToldOnce([], notes, notes, x)
  {}

  lemma SameNoteSameTelling(told: seq<SkipCause>, was: map<string, SkipCause>, a: map<string, SkipCause>,
                            b: map<string, SkipCause>, x: string)
    requires ToldOnce(told, was, a, x) && (x in a <==> x in b) && (x in a ==> a[x] == b[x])
    ensures ToldOnce(told, was, b, x)
  {}

  // ---------------------------------------------------- convert, step by step

  /** The two maps `convert` fills, for the claims walked so far. */
  ghost predicate Gathered(claims: seq<Claim>, claimed: map<string, seq<string>>, services: Tier) {
    && claimed.Keys == services.Keys == ClaimedNames(claims)
    && forall n <- claimed :: claimed[n] == Owners(claims, n) && services[n] == LastClaim(claims, n)
  }

  lemma NothingWalked(network: string, skipped: map<string, SkipCause>)
    ensures ClaimsOf([], network) == [] && Gathered([], map[], map[])
    ensures SeenNames([], network) == {} && Noted([], network, skipped) == skipped
    ensures forall x :: NewSkips([], network, skipped, x) == []
  {}

  lemma OneMoreContainer(cs: seq<Container>, i: nat, network: string, skipped: map<string, SkipCause>)
    requires i < |cs|
    ensures var more, owner, before := cs[..i + 1], DisplayName(cs[i]), Noted(cs[..i], network, skipped);
            match ServiceOf(cs[i], network)
            case Ok(svc) =>
              && ClaimsOf(more, network) == ClaimsOf(cs[..i], network) + [Claim(owner, svc)]
              && SeenNames(more, network) == SeenNames(cs[..i], network) + {owner}
              && Noted(more, network, skipped) == before
            case Err(cause) =>
              && ClaimsOf(more, network) == ClaimsOf(cs[..i], network)
              && SeenNames(more, network) == SeenNames(cs[..i], network)
              && Noted(more, network, skipped) == (if cause.NotCoreNet? then before else before[owner := cause])
  {
    hide ServiceOf, DisplayName;
    assert cs[..i + 1][..i] == cs[..i];
    assert cs[..i + 1] == cs[..i] + [cs[i]];
  }

  /** What walking container `i` adds about `x`. */
  ghost function TellsOf(cs: seq<Container>, i: nat, network: string, skipped: map<string, SkipCause>, x: string): seq<SkipCause>
    requires i < |cs|
  {
    var before := Noted(cs[..i], network, skipped);
    match ServiceOf(cs[i], network)
    case Ok(_) => []
    case Err(cause) =>
      if x == DisplayName(cs[i]) && !cause.NotCoreNet? && !(x in before && before[x] == cause) then [cause] else []
  }

  lemma OneMoreTold(cs: seq<Container>, i: nat, network: string, skipped: map<string, SkipCause>, x: string)
    requires i < |cs|
    ensures NewSkips(cs[..i + 1], network, skipped, x) ==
            NewSkips(cs[..i], network, skipped, x) + TellsOf(cs, i, network, skipped, x)
  {
    hide ServiceOf, DisplayName;
    assert cs[..i + 1][..i] == cs[..i];
  }

  lemma GatheredOneMore(claims: seq<Claim>, c: Claim, claimed: map<string, seq<string>>, services: Tier)
    requires Gathered(claims, claimed, services)
    ensures var n := c.svc.name;
            Gathered(claims + [c], claimed[n := (if n in claimed then claimed[n] else []) + [c.owner]], services[n := c.svc])
  {
    OneMoreClaim(claims, c);
    hide Owners, LastClaim, ClaimedNames;
    var more := claims + [c];
    forall n <- ClaimedNames(more) | n != c.svc.name
      ensures claimed[n] == Owners(more, n) && services[n] == LastClaim(more, n)
    {
      assert n in ClaimedNames(claims);
    }
  }

  /** What is left of `services` once the names outside `left` have been looked at. */
  ghost function Unsplit(claimed: map<string, seq<string>>, services: Tier, left: set<string>): Tier
    requires claimed.Keys == services.Keys
  {
    map n <- services | n in left || |claimed[n]| < 2 :: services[n]
  }

  /** The conflicts found among the names outside `left`. */
  ghost function Taken(claimed: map<string, seq<string>>, left: set<string>): map<string, Conflict> {
    map n <- claimed | n !in left && |claimed[n]| >= 2 :: Conflict(n, SortBy(claimed[n], Self))
  }

  lemma SplitOne(claimed: map<string, seq<string>>, services: Tier, left: set<string>, name: string)
    requires claimed.Keys == services.Keys && left <= claimed.Keys && name in left
    ensures name !in Taken(claimed, left)
    ensures Unsplit(claimed, services, left - {name}) ==
            if |claimed[name]| >= 2 then Unsplit(claimed, services, left) - {name} else Unsplit(claimed, services, left)
    ensures Taken(claimed, left - {name}) ==
            if |claimed[name]| >= 2 then Taken(claimed, left)[name := Conflict(name, SortBy(claimed[name], Self))]
            else Taken(claimed, left)
  {}

  // --------------------------------------------------- what is added to the log

  /**
   `after` continues `before` with lines about containers and conflicts only, the
   conflicts among them being those of `conflicts`, owners and all.
   */
  ghost predicate Tells(before: seq<LogLine>, after: seq<LogLine>, conflicts: seq<Conflict>) {
    && before <= after
    && forall i :: |before| <= i < |after| ==>
         !after[i].Unavailable? && !after[i].AvailableAgain? && (after[i].NotRouted? ==> after[i].conflict in conflicts)
  }

  lemma TellsOneMore(before: seq<LogLine>, after: seq<LogLine>, conflicts: seq<Conflict>, line: LogLine)
    requires Tells(before, after, conflicts)
    requires !line.Unavailable? && !line.AvailableAgain? && (line.NotRouted? ==> line.conflict in conflicts)
    ensures Tells(before, after + [line], conflicts)
  {}

  lemma TellsOn(a: seq<LogLine>, b: seq<LogLine>, c: seq<LogLine>, conflicts: seq<Conflict>)
    requires (Tells(a, b, []) || Tells(a, b, conflicts)) && (Tells(b, c, []) || Tells(b, c, conflicts))
    ensures Tells(a, c, conflicts)
  {}

  /** The outage messages, in order: true for "unavailable", false for "available again". */
  function Outages(log: seq<LogLine>): seq<bool> {
    if log == [] then []
    else
      var k := |log| - 1;
      var before := Outages(log[..k]);
      match log[k]
      case Unavailable => before + [true]
      case AvailableAgain => before + [false]
      case _ => before
  }

  lemma {:induction false} TellsNoOutage(before: seq<LogLine>, after: seq<LogLine>, conflicts: seq<Conflict>)
    requires Tells(before, after, conflicts)
    ensures Outages(after) == Outages(before)
  {
    if |after| > |before| {
      TellsNoOutage(before, after[..|after| - 1], conflicts);
    } else {
      assert after == before;
    }
  }

  lemma OutageOneMore(log: seq<LogLine>, line: LogLine)
    ensures Outages(log + [line]) ==
            Outages(log) + if line.Unavailable? then [true] else if line.AvailableAgain? then [false] else []
  {
    assert (log + [line])[..|log|] == log;
  }

  /** Whether Docker was last found unavailable. */
  function Down(polls: seq<Answer>): bool { polls != [] && polls[|polls| - 1] == None }

  /** What a run of polls says about outages. */
  function OutagesTold(polls: seq<Answer>): seq<bool> {
    if polls == [] then []
    else OutagesTold(polls[..|polls| - 1]) + News(Down(polls[..|polls| - 1]), Down(polls))
  }

  /** Over any run of polls the outage messages alternate, starting with "unavailable", and the last one is true. */
  lemma {:induction false} OutagesAlternate(polls: seq<Answer>)
    ensures Alternates(OutagesTold(polls))
    ensures Down(polls) <==> LastNotRouted(OutagesTold(polls))
  {
    if polls != [] {
      OutagesAlternate(polls[..|polls| - 1]);
      AlternatesOn(OutagesTold(polls[..|polls| - 1]), Down(polls[..|polls| - 1]), Down(polls));
    }
  }

  /** `after` adds one message about each of `names` and no other, `mark` saying which, and nothing about containers. */
  ghost predicate Announces(before: seq<LogLine>, after: seq<LogLine>, names: set<string>, mark: bool) {
    && (forall n :: Marks(after, n) == Marks(before, n) + if n in names then [mark] else [])
    && (forall x :: SkipLines(after, x) == SkipLines(before, x))
  }

  lemma AnnouncesNothing(log: seq<LogLine>, mark: bool)
    ensures Announces(log, log, {}, mark)
  {}

  lemma AnnouncesOneMore(before: seq<LogLine>, after: seq<LogLine>, names: set<string>, mark: bool, line: LogLine, name: string)
    requires Announces(before, after, names, mark) && name !in names
    requires if mark then line.NotRouted? && line.conflict.name == name else line == NoLonger(name)
    ensures Announces(before, after + [line], names + {name}, mark)
  {
    Appended(after, line);
    OneLine(line);
    hide Marks, SkipLines;
  }

  /** `after` tells why the containers walked are skipped, and nothing about conflicts. */
  ghost predicate Walked(before: seq<LogLine>, after: seq<LogLine>, cs: seq<Container>, network: string,
                         skipped: map<string, SkipCause>)
  {
    && (forall n :: Marks(after, n) == Marks(before, n))
    && (forall x :: SkipLines(after, x) == SkipLines(before, x) + NewSkips(cs, network, skipped, x))
  }

  lemma NotYetWalked(log: seq<LogLine>, network: string, skipped: map<string, SkipCause>)
    ensures Walked(log, log, [], network, skipped)
  {
    NothingWalked(network, skipped);
    hide Marks, SkipLines, NewSkips;
  }

  lemma WalkedUsable(before: seq<LogLine>, log: seq<LogLine>, cs: seq<Container>, i: nat, network: string,
                     skipped: map<string, SkipCause>)
    requires i < |cs| && Walked(before, log, cs[..i], network, skipped) && ServiceOf(cs[i], network).Ok?
    ensures Walked(before, log, cs[..i + 1], network, skipped)
  {
    hide ServiceOf, DisplayName, Marks, SkipLines, NewSkips, Walked;
    WalkOneMore(before, log, log, cs, i, network, skipped);
  }

  lemma WalkOneMore(before: seq<LogLine>, sofar: seq<LogLine>, after: seq<LogLine>, cs: seq<Container>, i: nat,
                    network: string, skipped: map<string, SkipCause>)
    requires i < |cs| && Walked(before, sofar, cs[..i], network, skipped)
    requires forall n :: Marks(after, n) == Marks(sofar, n)
    requires forall x :: SkipLines(after, x) == SkipLines(sofar, x) + TellsOf(cs, i, network, skipped, x)
    ensures Walked(before, after, cs[..i + 1], network, skipped)
  {
    hide TellsOf, Marks, SkipLines, NewSkips;
    forall x ensures SkipLines(after, x) == SkipLines(before, x) + NewSkips(cs[..i + 1], network, skipped, x) {
      OneMoreTold(cs, i, network, skipped, x);
    }
  }

  // ------------------------------------------------------------- one log line

  /** What a log line is to each reader of the log. */
  lemma Appended(log: seq<LogLine>, line: LogLine)
    ensures forall n :: Marks(log + [line], n) == Marks(log, n) + Marks([line], n)
    ensures forall x :: SkipLines(log + [line], x) == SkipLines(log, x) + SkipLines([line], x)
  {
    assert (log + [line])[..|log|] == log;
    assert [line][..0] == [];
  }

  lemma OneLine(line: LogLine)
    ensures line.NotRouted? ==> forall n :: Marks([line], n) == if line.conflict.name == n then [true] else []
    ensures line.NoLonger? ==> forall n :: Marks([line], n) == if line.name == n then [false] else []
    ensures !line.NotRouted? && !line.NoLonger? ==> forall n :: Marks([line], n) == []
    ensures line.Ignoring? ==> forall x :: SkipLines([line], x) == if line.container == x then [line.cause] else []
    ensures !line.Ignoring? ==> forall x :: SkipLines([line], x) == []
  {
    assert [line][..0] == [];
  }

  lemma AvailableAfter(s: Loop, network: string, answer: Answer)
    ensures Step(s, network, Event.Poll(answer)).available == answer.Some?
  {
    hide SetDocker, Converted;
  }

  /** What `convert` reports in conflict is what the directory then holds. */
  lemma ConflictsAreStored(d: Directory, cs: seq<Container>, network: string)
    ensures var (services, conflicts) := Converted(cs, network);
            var stored := SetDocker(d, services, conflicts).conflicts;
            forall x <- conflicts :: x.name in stored && stored[x.name] == x
  {
    ConvertedIsStored(d, cs, network);
    hide SetDocker, ClaimsOf;
    forall x <- ByKey(Contested(ClaimsOf(cs, network)))
      ensures x.name in Contested(ClaimsOf(cs, network)) && Contested(ClaimsOf(cs, network))[x.name] == x
    {
      ByKeyElements(Contested(ClaimsOf(cs, network)), x);
    }
  }

  lemma NamesOneMore(conflicts: seq<Conflict>, i: nat)
    requires DistinctKeys(conflicts, ConflictName) && i < |conflicts|
    ensures (set x <- conflicts[..i + 1] :: x.name) == (set x <- conflicts[..i] :: x.name) + {conflicts[i].name}
    ensures conflicts[i].name !in set x <- conflicts[..i] :: x.name
    ensures conflicts[i] in conflicts
  {
    assert conflicts[..i + 1] == conflicts[..i] + [conflicts[i]];
    forall x <- conflicts[..i] ensures x.name != conflicts[i].name {
      var j :| 0 <= j < i && conflicts[j] == x;
      assert ConflictName(conflicts[j]) != ConflictName(conflicts[i]);
    }
  }

  // -------------------------------------------------------------- the class

  /** The polling object. Its log is part of the state, so that contracts can speak of what it says and when. */
  class Docker {
    const store: Registry
    const socket: string
    const network: string
    const interval: int
    var available: bool
    var skipped: map<string, SkipCause>
    var conflicted: set<string>
    var log: seq<LogLine>

    /** The store is consistent, and the log so far says of every name exactly what `conflicted` says. */
    ghost predicate Valid()
      reads this, store
    {
      && store.Valid()
      && LogAgrees()
    }

    ghost predicate LogAgrees()
      reads this
    {
      forall n :: Alternates(Marks(log, n)) && (n in conflicted <==> LastNotRouted(Marks(log, n)))
    }

    constructor (store: Registry, socket: string, network: string, interval: int)
      requires store.Valid()
      ensures Valid()
      ensures this.store == store && this.socket == socket && this.network == network && this.interval == interval
      ensures available && skipped == map[] && conflicted == {} && log == []
    {
      this.store, this.socket, this.network, this.interval := store, socket, network, interval;
      available, skipped, conflicted, log := true, map[], {}, [];
    }

    method Log(line: LogLine)
      modifies this`log
      ensures log == old(log) + [line]
      ensures forall n :: Marks(log, n) == Marks(old(log), n) + Marks([line], n)
      ensures forall x :: SkipLines(log, x) == SkipLines(old(log), x) + SkipLines([line], x)
    {
      Appended(log, line);
      log := log + [line];
    }

    /** Note why a container is skipped, and log it unless that was the note already. */
    method ReportSkip(container: string, cause: SkipCause)
      modifies this`skipped, this`log
      ensures skipped == old(skipped)[container := cause]
      ensures forall n :: Marks(log, n) == Marks(old(log), n)
      ensures forall x :: SkipLines(log, x) == SkipLines(old(log), x) +
                if x == container && !(x in old(skipped) && old(skipped)[x] == cause) then [cause] else []
      ensures Tells(old(log), log, [])
    {
      if container in skipped && skipped[container] == cause { return; }
      skipped := skipped[container := cause];
      OneLine(Ignoring(container, cause));
      Log(Ignoring(container, cause));
    }

    /** One line for each name whose status changed: new conflicts in list order, ended ones in map order. */
    method ReportConflicts(conflicts: seq<Conflict>)
      requires DistinctKeys(conflicts, ConflictName)
      modifies this`conflicted, this`log
      ensures conflicted == set x <- conflicts :: x.name
      ensures forall n :: Marks(log, n) == Marks(old(log), n) + News(n in old(conflicted), n in conflicted)
      ensures forall x :: SkipLines(log, x) == SkipLines(old(log), x)
      ensures Tells(old(log), log, conflicts)
    {
      hide Marks, SkipLines;
      var current := ReportAppeared(conflicts);
      ReportCleared(current);
      conflicted := current;
    }

    method ReportAppeared(conflicts: seq<Conflict>) returns (current: set<string>)
      requires DistinctKeys(conflicts, ConflictName)
      modifies this`log
      ensures current == set x <- conflicts :: x.name
      ensures forall n :: Marks(log, n) == Marks(old(log), n) + News(false, n in current && n !in conflicted)
      ensures forall x :: SkipLines(log, x) == SkipLines(old(log), x)
      ensures Tells(old(log), log, conflicts)
    {
      assert Tells(log, log, conflicts);
      hide Marks, SkipLines, Tells;
      AnnouncesNothing(log, true);
      current := {};
      for i := 0 to |conflicts|
        invariant current == set x <- conflicts[..i] :: x.name
        invariant Announces(old(log), log, current - conflicted, true)
        invariant Tells(old(log), log, conflicts)
      {
        hide Announces;
        var name := conflicts[i].name;
        NamesOneMore(conflicts, i);
        if name !in conflicted {
          TellsOneMore(old(log), log, conflicts, NotRouted(conflicts[i]));
          AnnouncesOneMore(old(log), log, current - conflicted, true, NotRouted(conflicts[i]), name);
          Log(NotRouted(conflicts[i]));
        }
        assert current + {name} - conflicted == current - conflicted + if name in conflicted then {} else {name};
        current := current + {name};
      }
      assert conflicts[..|conflicts|] == conflicts;
    }

    method ReportCleared(current: set<string>)
      modifies this`log
      ensures forall n :: Marks(log, n) == Marks(old(log), n) + News(n in conflicted, n in conflicted && n in current)
      ensures forall x :: SkipLines(log, x) == SkipLines(old(log), x)
      ensures Tells(old(log), log, [])
    {
      assert Tells(log, log, []);
      hide Marks, SkipLines, Tells;
      AnnouncesNothing(log, false);
      var left := conflicted;
      while left != {}
        invariant left <= conflicted
        invariant Announces(old(log), log, conflicted - left - current, false)
        invariant Tells(old(log), log, [])
      {
        hide Announces;
        var name :| name in left;
        if name !in current {
          TellsOneMore(old(log), log, [], NoLonger(name));
          AnnouncesOneMore(old(log), log, conflicted - left - current, false, NoLonger(name), name);
          Log(NoLonger(name));
        }
        left := left - {name};
        assert conflicted - left - current ==
               conflicted - (left + {name}) - current + (if name in current then {} else {name});
      }
    }

    /** Forget the skip note of every container that is usable now. */
    method ForgetSkips(seen: set<string>)
      modifies this`skipped
      ensures skipped == old(skipped) - seen
    {
      var left := skipped.Keys;
      while left != {}
        invariant left <= old(skipped).Keys
        invariant skipped == map k <- old(skipped) | k in left || k !in seen :: old(skipped)[k]
      {
        var container :| container in left;
        if container in seen { skipped := skipped - {container}; }
        left := left - {container};
      }
    }

    /** Pass over container `i`, with a word about it unless it is no business of CoreNet's. */
    method SkipOver(cs: seq<Container>, i: nat, cause: SkipCause, ghost before: seq<LogLine>, ghost first: map<string, SkipCause>)
      requires i < |cs| && ServiceOf(cs[i], network) == Err(cause)
      requires skipped == Noted(cs[..i], network, first) && Walked(before, log, cs[..i], network, first)
      modifies this`skipped, this`log
      ensures skipped == Noted(cs[..i + 1], network, first) && Walked(before, log, cs[..i + 1], network, first)
      ensures Tells(old(log), log, [])
    {
      hide ServiceOf, DisplayName, ClaimsOf, SeenNames, Noted, NewSkips, Marks, SkipLines, Walked;
      ghost var sofar := log;
      OneMoreContainer(cs, i, network, first);
      assert Tells(log, log, []);
      if !cause.NotCoreNet? { ReportSkip(DisplayName(cs[i]), cause); }
      WalkOneMore(before, sofar, log, cs, i, network, first);
    }

    /** Walk the containers, collecting who claims what. */
    method Gather(cs: seq<Container>) returns (claimed: map<string, seq<string>>, services: Tier, seen: set<string>)
      modifies this`skipped, this`log
      ensures Gathered(ClaimsOf(cs, network), claimed, services)
      ensures seen == SeenNames(cs, network)
      ensures skipped == Noted(cs, network, old(skipped))
      ensures Walked(old(log), log, cs, network, old(skipped))
      ensures Tells(old(log), log, [])
    {
      assert Tells(log, log, []);
      hide ServiceOf, DisplayName, ClaimsOf, Gathered, SeenNames, Noted, NewSkips, Marks, SkipLines, Tells, Walked;
      claimed, services, seen := map[], map[], {};
      NothingWalked(network, skipped);
      assert cs[..0] == [];
      NotYetWalked(log, network, skipped);
      for i := 0 to |cs|
        invariant Gathered(ClaimsOf(cs[..i], network), claimed, services)
        invariant seen == SeenNames(cs[..i], network)
        invariant skipped == Noted(cs[..i], network, old(skipped))
        invariant Walked(old(log), log, cs[..i], network, old(skipped))
        invariant Tells(old(log), log, [])
      {
        ghost var sofar := log;
        OneMoreContainer(cs, i, network, old(skipped));
        var r := ToService(cs[i], network);
        match r
        case Err(cause) =>
          SkipOver(cs, i, cause, old(log), old(skipped));
          TellsOn(old(log), sofar, log, []);
        case Ok(svc) =>
          WalkedUsable(old(log), log, cs, i, network, old(skipped));
          var owner := DisplayName(cs[i]);
          GatheredOneMore(ClaimsOf(cs[..i], network), Claim(owner, svc), claimed, services);
          seen := seen + {owner};
          claimed := claimed[svc.name := (if svc.name in claimed then claimed[svc.name] else []) + [owner]];
          services := services[svc.name := svc];
      }
      assert cs[..|cs|] == cs;
    }

    /** Split the claims: names with two or more owners leave `services` and become conflicts, in any order. */
    method Split(claimed: map<string, seq<string>>, services: Tier)
      returns (routed: Tier, conflicts: seq<Conflict>, ghost ks: seq<string>)
      requires claimed.Keys == services.Keys
      ensures routed == Unsplit(claimed, services, {})
      ensures Enumerates(Taken(claimed, {}), ks, conflicts)
    {
      routed, conflicts, ks := services, [], [];
      var left := claimed.Keys;
      while left != {}
        invariant left <= claimed.Keys
        invariant routed == Unsplit(claimed, services, left)
        invariant Enumerates(Taken(claimed, left), ks, conflicts)
      {
        var name :| name in left;
        SplitOne(claimed, services, left, name);
        if |claimed[name]| >= 2 {
          var conflict := Conflict(name, SortBy(claimed[name], Self));
          EnumeratesOneMore(Taken(claimed, left), ks, conflicts, name, conflict);
          routed := routed - {name};
          conflicts := conflicts + [conflict];
          ks := ks + [name];
        }
        left := left - {name};
      }
    }

    /** Containers into services and conflicts. */
    method Convert(cs: seq<Container>) returns (services: seq<Service>, conflicts: seq<Conflict>)
      modifies this`skipped, this`conflicted, this`log
      ensures (services, conflicts) == Converted(cs, network)
      ensures skipped == SkipsAfter(cs, network, old(skipped))
      ensures conflicted == ContestedNames(ClaimsOf(cs, network))
      ensures forall n :: Marks(log, n) == Marks(old(log), n) + News(n in old(conflicted), n in conflicted)
      ensures forall x :: SkipLines(log, x) == SkipLines(old(log), x) + NewSkips(cs, network, old(skipped), x)
      ensures Tells(old(log), log, conflicts)
    {
      hide Tells, Marks, SkipLines;
      var claimed, tier, seen := Gather(cs);
      ghost var sofar := log;
      ForgetSkips(seen);
      ghost var claims := ClaimsOf(cs, network);
      ghost var ks;
      var routed;
      routed, conflicts, ks := Split(claimed, tier);
      SplitIsPartition(claims, claimed, tier);
      SortedValues(Contested(claims), ks, conflicts, ConflictName);
      conflicts := SortBy(conflicts, ConflictName);
      RoutedKeyed(claims);
      services := InNameOrder(routed);
      ByKeyStrict(Contested(claims), ConflictName);
      Runs.StrictHasDistinctKeys(conflicts, ConflictName);
      ContestedListed(claims);
      ReportConflicts(conflicts);
      TellsOn(old(log), sofar, log, conflicts);
    }

    /** One step of the loop, on an answer or on the lack of one. */
    method Poll(answer: Answer)
      requires Valid()
      modifies this, store
      ensures Valid()
      ensures Loop(store.State(), available) == Step(old(Loop(store.State(), available)), network, Event.Poll(answer))
      ensures answer.None? ==> skipped == old(skipped) && conflicted == old(conflicted)
      ensures answer.Some? ==> skipped == SkipsAfter(answer.value, network, old(skipped))
      ensures answer.Some? ==> conflicted == ContestedNames(ClaimsOf(answer.value, network))
      ensures forall n :: Marks(log, n) == Marks(old(log), n) + News(n in old(conflicted), n in conflicted)
      ensures forall x :: SkipLines(log, x) == SkipLines(old(log), x) +
                if answer.Some? then NewSkips(answer.value, network, old(skipped), x) else []
      ensures Outages(log) == Outages(old(log)) + News(!old(available), !available)
      ensures old(log) <= log
      ensures forall i :: |old(log)| <= i < |log| && log[i].NotRouted? ==>
                log[i].conflict.name in store.conflicts && store.conflicts[log[i].conflict.name] == log[i].conflict
    {
      hide Marks, SkipLines, Outages, NewSkips, SkipsAfter, Converted, SetDocker, ClaimsOf;
      forall n ensures Alternates(Marks(log, n)) && LastNotRouted(Marks(log, n)) == (n in conflicted) {}
      match answer
      case None =>
        // Only the first failure in a row writes.
        if available {
          OneLine(Unavailable);
          OutageOneMore(log, Unavailable);
          Log(Unavailable);
          available := false;
          store.SetDocker([], []);
        }
      case Some(cs) =>
        if !available {
          OneLine(AvailableAgain);
          OutageOneMore(log, AvailableAgain);
          Log(AvailableAgain);
          available := true;
        }
        ghost var sofar := log;
        var services, conflicts := Convert(cs);
        TellsNoOutage(sofar, log, conflicts);
        ConflictsAreStored(store.State(), cs, network);
        store.SetDocker(services, conflicts);
      LogStillAgrees(old(log), old(conflicted));
    }

    /** The loop from its start: what the object remembers and has logged after any run of polls. */
    method Run(polls: seq<Answer>)
      requires Valid() && skipped == map[] && conflicted == {} && log == []
      modifies this, store
      ensures Valid()
      ensures Loop(store.State(), available) == Steps(old(Loop(store.State(), available)), network, Polled(polls))
      ensures conflicted == ConflictedAfter(polls, network)
      ensures forall n :: Marks(log, n) == Said(polls, network, n)
      ensures skipped == NotesAfter(polls, network, map[])
      ensures forall x :: SkipLines(log, x) == SkipsTold(polls, network, map[], x)
      ensures old(available) ==> Outages(log) == OutagesTold(polls)
    {
      hide Step, SkipsAfter, NewSkips, ContestedNames, ClaimsOf;
      for i := 0 to |polls|
        invariant Valid()
        invariant Loop(store.State(), available) == Steps(old(Loop(store.State(), available)), network, Polled(polls[..i]))
        invariant conflicted == ConflictedAfter(polls[..i], network)
        invariant forall n :: Marks(log, n) == Said(polls[..i], network, n)
        invariant skipped == NotesAfter(polls[..i], network, map[])
        invariant forall x :: SkipLines(log, x) == SkipsTold(polls[..i], network, map[], x)
        invariant old(available) ==> Outages(log) == OutagesTold(polls[..i]) && !available == Down(polls[..i])
      {
        assert polls[..i + 1][..i] == polls[..i];
        assert Polled(polls[..i + 1])[..i] == Polled(polls[..i]);
        AvailableAfter(Loop(store.State(), available), network, polls[i]);
        Poll(polls[i]);
      }
      assert polls[..|polls|] == polls;
    }

    lemma LogStillAgrees(before: seq<LogLine>, was: set<string>)
      requires forall n :: Alternates(Marks(before, n)) && LastNotRouted(Marks(before, n)) == (n in was)
      requires forall n :: Marks(log, n) == Marks(before, n) + News(n in was, n in conflicted)
      ensures LogAgrees()
    {
      forall n ensures Alternates(Marks(log, n)) && (n in conflicted <==> LastNotRouted(Marks(log, n))) {
        AlternatesOn(Marks(before, n), n in was, n in conflicted);
      }
    }
  }

  lemma OneMoreClaim(claims: seq<Claim>, c: Claim)
    ensures var more := claims + [c];
            && ClaimedNames(more) == ClaimedNames(claims) + {c.svc.name}
            && (forall n :: Owners(more, n) == if n == c.svc.name then Owners(claims, n) + [c.owner] else Owners(claims, n))
            && (forall n <- ClaimedNames(more) ::
                 LastClaim(more, n) == if n == c.svc.name then c.svc else LastClaim(claims, n))
    ensures c.svc.name !in ClaimedNames(claims) ==> Owners(claims, c.svc.name) == []
  {
    assert (claims + [c])[..|claims|] == claims;
    ClaimedHasOwner(claims, c.svc.name);
  }

  lemma SplitIsPartition(claims: seq<Claim>, claimed: map<string, seq<string>>, services: Tier)
    requires Gathered(claims, claimed, services)
    ensures Unsplit(claimed, services, {}) == Routed(claims)
    ensures Taken(claimed, {}) == Contested(claims)
  {
    forall n ensures n in Unsplit(claimed, services, {}) <==> n in Routed(claims) { ClaimedHasOwner(claims, n); }
  }

  lemma ContestedListed(claims: seq<Claim>)
    ensures (set x <- ByKey(Contested(claims)) :: x.name) == ContestedNames(claims)
  {
    var names := set x <- ByKey(Contested(claims)) :: x.name;
    forall n ensures n in names <==> n in ContestedNames(claims) { NamesSplit(claims, n); }
  }
}
