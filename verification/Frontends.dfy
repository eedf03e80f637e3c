/**
 The decisions of the front ends (internal/dns/dns.go, internal/daemon/proxy.go,
 internal/daemon/api.go): what DNS answers, where the proxy sends a request, and
 what the resolve API says, all over one directory.
 */
module Frontends {
  import opened Results
  import opened Strings
  import opened Protocol
  import opened Directories
  import opened Registries
  import Runs = DirectoryRuns

  // -------------------------------------------------------------------- DNS

  /** RCODEs of section 4.1.1 of RFC 1035. */
  datatype Rcode = NoError | FormErr | NXDomain | Refused

  const OpcodeQuery := 0
  const ClassINET := 1
  const TypeA := 1

  datatype Question = Question(name: string, qtype: int, qclass: int)

  /** A reply: its code, and the A records it carries. */
  datatype DnsReply = DnsReply(rcode: Rcode, answers: seq<(string, string)>)

  /** What ServeDNS replies; `proxy` is where its A records point. */
  ghost function Dns(d: Directory, proxy: string, opcode: int, questions: seq<Question>): DnsReply {
    if opcode != OpcodeQuery || |questions| != 1 then DnsReply(FormErr, [])
    else
      var q := questions[0];
      var name := NormalizeName(q.name);
      if q.qclass != ClassINET || !IsCoreName(name) then DnsReply(Refused, [])
      else if Lookup(d, name) == None then DnsReply(NXDomain, [])
      else DnsReply(NoError, if q.qtype == TypeA then [(q.name, proxy)] else [])
  }

  method ServeDNS(dir: Registry, proxy: string, opcode: int, questions: seq<Question>) returns (reply: DnsReply)
    ensures reply == Dns(dir.State(), proxy, opcode, questions)
  {
    reply := DnsReply(NoError, []);
    if opcode != OpcodeQuery || |questions| != 1 {
      reply := reply.(rcode := FormErr);
      return;
    }
    var question := questions[0];
    var name := NormalizeName(question.name);
    if question.qclass != ClassINET || !IsCoreName(name) {
      reply := reply.(rcode := Refused);
      return;
    }
    var found := dir.Lookup(name);
    if found == None {
      reply := reply.(rcode := NXDomain);
      return;
    }
    if question.qtype == TypeA { reply := reply.(answers := reply.answers + [(question.name, proxy)]); }
  }

  // ------------------------------------------------------------------ proxy

  datatype ProxyReply = Forward(target: Service) | ErrorPage(status: int)

  /** Where the proxy sends a request for `host`, the Host header without its port. */
  ghost function Proxy(d: Directory, host: string): ProxyReply {
    var name := NormalizeName(host);
    match Lookup(d, name)
    case Some(svc) => Forward(svc)
    case None => ErrorPage(if NormalizeName(name) in d.conflicts then 409 else 404)
  }

  method Route(dir: Registry, host: string) returns (reply: ProxyReply)
    ensures reply == Proxy(dir.State(), host)
  {
    var name := NormalizeName(host);
    var svc := dir.Lookup(name);
    if svc == None {
      var conflict := dir.Conflict(name);
      if conflict.Some? { return ErrorPage(409); }
      return ErrorPage(404);
    }
    return Forward(svc.value);
  }

  // ------------------------------------------------------------ resolve API

  datatype ResolveReply = Found(svc: Service) | Problem(status: int)

  /** GET /v1/resolve?name=`asked`. */
  ghost function ResolveAPI(d: Directory, asked: string): ResolveReply {
    var name := NormalizeName(asked);
    if !Valid(name) then Problem(400)
    else match Lookup(d, name)
      case Some(svc) => Found(svc)
      case None => Problem(if name in d.conflicts then 409 else 404)
  }

  method HandleResolve(dir: Registry, asked: string) returns (reply: ResolveReply)
    ensures reply == ResolveAPI(dir.State(), asked)
  {
    var name := NormalizeName(asked);
    var problem := ValidateName(name);
    if problem.Some? { return Problem(400); }
    ValidIsNormal(name);
    var svc := dir.Lookup(name);
    if svc == None {
      var conflict := dir.Conflict(name);
      if conflict.Some? { return Problem(409); }
      return Problem(404);
    }
    return Found(svc.value);
  }

  // --------------------------------------------------------------- listings

  /** GET /v1/services: the control socket lists everything with the conflicts, the peer listener only what is local. */
  method HandleServices(dir: Registry, control: bool) returns (services: seq<Service>, conflicts: seq<Conflict>)
    requires dir.Valid()
    ensures services == if control then Listing(dir.State()) else LocalListing(dir.State())
    ensures conflicts == if control then ConflictListing(dir.State()) else []
  {
    conflicts := [];
    if control {
      services := dir.List();
      conflicts := dir.Conflicts();
    } else {
      services := dir.ListLocal();
    }
  }

  // ---------------------------------------------------------- registrations

  /** POST /v1/services: the status the registry's answer becomes. */
  function AddStatus(r: Result<Service, AddError>): int {
    match r
    case Ok(_) => 201
    case Err(e) => if IsConflict(e) then 409 else 400
  }

  /** DELETE /v1/services/{name}. */
  function RemoveStatus(r: Option<RemoveError>): int {
    match r
    case None => 204
    case Some(e) => if e.NotFound? then 404 else 409
  }

  /** The reply carries the service as it was stored. */
  method HandleAddService(dir: Registry, svc: Service) returns (status: int, added: Option<Service>)
    requires dir.Valid()
    modifies dir
    ensures dir.Valid()
    ensures var (d, r) := Directories.Add(old(dir.State()), svc); dir.State() == d && status == AddStatus(r)
    ensures added == if status == 201 then Resolve(dir.State(), NormalizeName(svc.name)) else None
    ensures status == 201 ==> added == Some(Stored(svc, SourceRuntime))
    ensures status != 201 ==> dir.State() == old(dir.State())
  {
    RegistrationStatus(dir.State(), svc);
    hide NormalizeName, ValidateName;
    var r := dir.Add(svc);
    status := AddStatus(r);
    added := match r case Ok(s) => Some(s) case Err(_) => None;
  }

  /**
   The name is normalized here and again by the registry. 204 means a
   registration went away, and the name falls to whichever lower tier has it.
   */
  method HandleRemoveService(dir: Registry, path: string) returns (status: int)
    requires dir.Valid()
    modifies dir
    ensures dir.Valid()
    ensures var (d, r) := Directories.Remove(old(dir.State()), NormalizeName(path)); dir.State() == d && status == RemoveStatus(r)
    ensures status in {204, 404, 409}
    ensures status == 204 <==> dir.State() != old(dir.State())
    ensures var n := NormalizeName(NormalizeName(path));
            status == 204 ==> n in old(dir.State()).runtime && n !in dir.State().runtime
    ensures var n := NormalizeName(NormalizeName(path));
            && (status == 409 <==> n !in old(dir.State()).runtime && n in Local(old(dir.State())))
            && (status == 404 <==> n !in Local(old(dir.State())))
  {
    RemovalStatus(dir.State(), path);
    hide NormalizeName;
    var r := dir.Remove(NormalizeName(path));
    status := RemoveStatus(r);
  }

  /**
   204 exactly when the name was registered, which is when the directory
   changes, and then only that name's resolution can change: it falls to the
   lower tiers. 409 exactly when this node serves the name without a
   registration, 404 exactly when it does not serve it at all.
   */
  lemma RemovalStatus(d: Directory, path: string)
    ensures var n := NormalizeName(NormalizeName(path));
            var (d', r) := Directories.Remove(d, NormalizeName(path));
            && (RemoveStatus(r) == 204 <==> n in d.runtime)
            && (RemoveStatus(r) == 204 <==> d' != d)
            && (RemoveStatus(r) == 409 <==> n !in d.runtime && (n in d.config || n in d.docker))
            && (RemoveStatus(r) == 404 <==> n !in Local(d))
            && n !in d'.runtime
            && Resolve(d', n) == Resolve(d.(runtime := map[]), n)
            && (forall m :: m != n ==> Resolve(d', m) == Resolve(d, m))
  {
    hide NormalizeName;
  }

  /** 409 means the name is configured or registered already; a name only Docker or another node provides is overridden. */
  lemma RegistrationStatus(d: Directory, svc: Service)
    ensures var n := NormalizeName(svc.name);
            var usable := Valid(n) && svc.address != "" && 1 <= svc.port <= 65535;
            var (d', r) := Directories.Add(d, svc);
            && (AddStatus(r) == 400 <==> !usable)
            && (AddStatus(r) == 409 <==> usable && (n in d.config || n in d.runtime))
            && (AddStatus(r) == 201 <==> d' != d)
            && (AddStatus(r) == 201 ==> Resolve(d', n) == Some(Service(n, svc.address, svc.port, "runtime")))
  {
    hide NormalizeName, ValidateName;
  }

  // ------------------------------------------------------ each on its own

  /**
   What DNS replies to any message: FORMERR unless it is a query of one question,
   REFUSED outside class IN and for names that do not end in ".core", then
   NXDOMAIN for what the directory does not know, and data only for type A.
   */
  lemma DnsByCase(d: Directory, proxy: string, opcode: int, questions: seq<Question>)
    ensures var reply := Dns(d, proxy, opcode, questions);
            if opcode != 0 || |questions| != 1 then reply == DnsReply(FormErr, [])
            else
              var q := questions[0];
              var n := NormalizeName(q.name);
              if q.qclass != 1 || !(|n| >= 6 && n[|n| - 5..] == ".core") then reply == DnsReply(Refused, [])
              else if Resolve(d, NormalizeName(n)) == None then reply == DnsReply(NXDomain, [])
              else reply == DnsReply(NoError, if q.qtype == 1 then [(q.name, proxy)] else [])
  {
    if |questions| == 1 { CoreNameIff(NormalizeName(questions[0].name)); }
    hide NormalizeName, IsCoreName, Resolve;
  }

  /** Where the proxy sends any host: to the service of the name normalized twice, else 409 or 404. */
  lemma ProxyByCase(d: Directory, host: string)
    ensures var n := NormalizeName(NormalizeName(host));
            match Resolve(d, n)
            case Some(svc) => Proxy(d, host) == Forward(svc)
            case None => Proxy(d, host) == ErrorPage(if n in d.conflicts then 409 else 404)
  {
    hide NormalizeName, Resolve;
  }

  /** What the resolve API answers for any name: 400 unless it is usable, then the service, 409 or 404. */
  lemma ResolveByCase(d: Directory, asked: string)
    ensures var n := NormalizeName(asked);
            if !Valid(n) then ResolveAPI(d, asked) == Problem(400)
            else match Resolve(d, n)
              case Some(svc) => ResolveAPI(d, asked) == Found(svc)
              case None => ResolveAPI(d, asked) == Problem(if n in d.conflicts then 409 else 404)
  {
    if Valid(NormalizeName(asked)) { ValidIsNormal(NormalizeName(asked)); }
    hide NormalizeName, ValidateName, Resolve;
  }

  // -------------------------------------------------------------- agreement

  /** The three front ends agree about a service, or about there being none. */
  ghost predicate AgreeOn(dns: DnsReply, proxy: ProxyReply, api: ResolveReply) {
    match proxy
    case Forward(svc) => dns.rcode == NoError && api == Found(svc)
    case ErrorPage(_) => dns.rcode != NoError && api.Problem?
  }

  /**
   For a name that is valid once normalized, however each front end is given
   it: one and the same service, or NXDOMAIN with 409 from the other two when
   the name is in conflict and 404 when it is not.
   */
  lemma FrontEndsAgree(d: Directory, proxy: string, q: Question, host: string, asked: string)
    requires Valid(NormalizeName(q.name)) && q.qclass == ClassINET
    requires NormalizeName(host) == NormalizeName(asked) == NormalizeName(q.name)
    ensures var n := NormalizeName(q.name);
            match Resolve(d, n)
            case Some(svc) =>
              && Dns(d, proxy, OpcodeQuery, [q]) == DnsReply(NoError, if q.qtype == TypeA then [(q.name, proxy)] else [])
              && Proxy(d, host) == Forward(svc) && ResolveAPI(d, asked) == Found(svc)
            case None =>
              var status := if n in d.conflicts then 409 else 404;
              && Dns(d, proxy, OpcodeQuery, [q]) == DnsReply(NXDomain, [])
              && Proxy(d, host) == ErrorPage(status) && ResolveAPI(d, asked) == Problem(status)
  {
    var n := NormalizeName(q.name);
    ValidIsNormal(n);
    ValidIsCoreName(n);
    hide NormalizeName, ValidateName, IsCoreName;
  }

  lemma UnknownIsNotRouted(d: Directory, n: string)
    requires Sound(d) && !Valid(n)
    ensures Resolve(d, n) == None
  {
    Runs.SoundNamesValid(d);
    ResolvesIffKnown(d, n);
  }

  /**
   In every reachable state they agree on a query exactly when normalizing it
   once was enough, or there is nothing to find behind the second
   normalization, which only Lookup makes.
   */
  lemma FrontEndsAgreeIff(ops: seq<Runs.Op>, proxy: string, q: string)
    requires forall op <- ops :: Runs.Legal(op)
    ensures var d := Runs.Run(EmptyDirectory, ops);
            var n := NormalizeName(q);
            AgreeOn(Dns(d, proxy, OpcodeQuery, [Question(q, TypeA, ClassINET)]), Proxy(d, q), ResolveAPI(d, q)) <==>
              NormalizeName(n) == n || Resolve(d, NormalizeName(n)) == None
  {
    var d := Runs.Run(EmptyDirectory, ops);
    var n := NormalizeName(q);
    Runs.RunsAreSound(ops);
    if Valid(n) {
      FrontEndsAgree(d, proxy, Question(q, TypeA, ClassINET), q, q);
      ValidIsNormal(n);
    } else {
      UnknownIsNotRouted(d, n);
      NormalizeTwice(q);
      if Ragged(n) { RaggedIsRefused(n); }
      hide NormalizeName, ValidateName, IsCoreName, Ragged, Runs.Run;
    }
  }

  /**
   They do disagree: two trailing dots are one more than the resolve API and
   ServeDNS's decision accept. No DNS message carries such a name, since an empty
   label ends it, so what a client sees is the proxy against the resolve API.
   */
  lemma TwoDotsAreRoutedButRefused(d: Directory, proxy: string, svc: Service)
    requires Resolve(d, "w.core") == Some(svc)
    ensures Proxy(d, "w.core..") == Forward(svc)
    ensures Dns(d, proxy, OpcodeQuery, [Question("w.core..", TypeA, ClassINET)]).rcode == Refused
    ensures ResolveAPI(d, "w.core..") == Problem(400)
  {
    ShortNameIsValid();
    ValidIsNormal("w.core");
    TwoDots();
    RaggedIsRefused("w.core.");
    hide NormalizeName, ValidateName, IsCoreName;
  }

  lemma TwoDots()
    ensures NormalizeName("w.core..") == "w.core." && NormalizeName("w.core.") == "w.core"
  {
    assert TrimSpace("w.core..") == "w.core..";
    assert TrimDot("w.core..") == "w.core.";
    assert ToLower("w.core.") == "w.core.";
    assert TrimSpace("w.core.") == "w.core.";
    assert TrimDot("w.core.") == "w.core";
    assert ToLower("w.core") == "w.core";
  }

  /** No listed name is ever refused, with or without its trailing dot. */
  lemma ListedIsAnswered(ops: seq<Runs.Op>, proxy: string, s: Service, spelling: string, qtype: int)
    requires forall op <- ops :: Runs.Legal(op)
    requires s in Listing(Runs.Run(EmptyDirectory, ops)) && NormalizeName(spelling) == s.name
    ensures var d := Runs.Run(EmptyDirectory, ops);
            && Dns(d, proxy, OpcodeQuery, [Question(spelling, qtype, ClassINET)]).rcode == NoError
            && Proxy(d, spelling) == Forward(s) && ResolveAPI(d, spelling) == Found(s)
  {
    hide NormalizeName, ValidateName, IsCoreName, Dns, Proxy, ResolveAPI;
    var d := Runs.Run(EmptyDirectory, ops);
    Runs.ListAgreesWithLookup(ops);
    FrontEndsAgree(d, proxy, Question(spelling, qtype, ClassINET), spelling, spelling);
    ValidIsNormal(s.name);
  }

  // -------------------------------------------------------------- conflicts

  /**
   A conflicted name goes unrouted exactly when no other tier knows it: the
   conflict only takes it out of the Docker tier, and a node that advertises it
   still serves it. It is advertised only from the configuration or a registration.
   */
  lemma ConflictedNameResolvesIff(ops: seq<Runs.Op>, n: string)
    requires forall op <- ops :: Runs.Legal(op)
    requires n in Runs.Run(EmptyDirectory, ops).conflicts
    ensures var d := Runs.Run(EmptyDirectory, ops);
            && n !in d.docker
            && (Proxy(d, n) == ErrorPage(409) <==>
                 n !in d.runtime && n !in d.config && Providers(d.remote, n) == {})
            && (n in Local(d) <==> n in d.runtime || n in d.config)
  {
    var d := Runs.Run(EmptyDirectory, ops);
    Runs.RunsAreSound(ops);
    ValidIsNormal(n);
    hide NormalizeName, ValidateName, Runs.Run;
  }

  lemma AdvertisedByOneMore(remote: map<string, Tier>, id: string, t: Tier, n: string)
    requires n in t
    ensures Providers(StoreRemote(remote, id, t), n) == Providers(remote, n) + {id}
    ensures ResolveRemote(StoreRemote(remote, id, t), n) ==
            if Providers(remote, n) != {} && Less(Least(Providers(remote, n)), id) then ResolveRemote(remote, n) else Some(t[n])
  {
    hide Less;
    LessIrreflexive(id);
    LeastOfOneMore(Providers(remote, n), id);
    assert Providers(StoreRemote(remote, id, t), n) == Providers(remote, n) + {id};
  }

  /**
   So a conflicted name is routed all the same as soon as any node's list has
   it, whatever else the list and the other nodes hold: to the lowest node ID
   that provides it, which is the advertising node itself unless a lower one does.
   */
  lemma ConflictedNameCanBeRemote(d: Directory, id: string, list: seq<Service>, n: string)
    requires Sound(d) && n in d.conflicts && n !in d.runtime && n !in d.config
    requires n in Collect(list, id, true)
    ensures var d' := SetRemote(d, id, list);
            && n in d'.conflicts
            && Proxy(d', n) == if Providers(d.remote, n) != {} && Less(Least(Providers(d.remote, n)), id)
                               then Proxy(d, n) else Forward(Collect(list, id, true)[n])
  {
    hide ValidateName, NormalizeName, Collect, Less;
    assert Valid(n) && n !in d.docker;
    ValidIsNormal(n);
    hide Sound, Valid;
    AdvertisedByOneMore(d.remote, id, Collect(list, id, true), n);
  }
}
