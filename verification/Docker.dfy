/** One container into one service (internal/discovery/docker.go). */
module Containers {
  import opened Results
  import opened Strings
  import opened Protocol

  const LabelName := "corenet.name"
  const LabelService := "corenet.service"
  const LabelPort := "corenet.port"
  const ServiceHTTP := "http"

  /** The part of Docker's container list discovery reads; networks map a network's name to the address on it. */
  datatype Container = Container(id: string, names: seq<string>, labels: map<string, string>, networks: map<string, string>)

  /** Why a container is not a service. NotCoreNet is passed over silently, the rest is reported. */
  datatype SkipCause =
    | NotCoreNet
    | BadServiceName(name: string, cause: NameError)
    | NoServiceLabel
    | UnsupportedService(kind: string)
    | NoPortLabel
    | InvalidPort(raw: string)
    | NoAddressOn(network: string)
    | NoReachableAddress

  /** The name a container goes by here: without the leading slash, or a short form of its ID. */
  function DisplayName(c: Container): string {
    if |c.names| > 0 && |c.names[0]| > 1 then c.names[0][1..]
    else if |c.id| > 12 then c.id[..12]
    else c.id
  }

  /** Go's zero value for an absent label. */
  function LabelOr(c: Container, key: string): string {
    if key in c.labels then c.labels[key] else ""
  }

  predicate IsDigit(c: char) { '0' <= c <= '9' }

  function DigitsValue(s: string): nat
    requires forall c <- s :: IsDigit(c)
  {
    if s == "" then 0 else
      assert IsDigit(s[|s| - 1]) by { assert s[|s| - 1] in s; }
      10 * DigitsValue(s[..|s| - 1]) + (s[|s| - 1] as int - '0' as int)
  }

  const MaxInt := 0x7fff_ffff_ffff_ffff

  /** `strconv.Atoi`: an optional sign, at least one digit, and a value that fits a 64-bit int. */
  function Atoi(s: string): Option<int> {
    var digits := if s != "" && (s[0] == '+' || s[0] == '-') then s[1..] else s;
    if digits == "" || exists c <- digits :: !IsDigit(c) then None
    else
      var magnitude: int := DigitsValue(digits);
      var value := if s[0] == '-' then -magnitude else magnitude;
      if -MaxInt - 1 <= value <= MaxInt then Some(value) else None
  }

  /** A number's decimal digits, most significant first. */
  function Decimal(n: nat): (s: string)
    ensures s != "" && forall c <- s :: IsDigit(c)
  {
    var last := ('0' as int + n % 10) as char;
    if n < 10 then [last] else Decimal(n / 10) + [last]
  }

  lemma {:induction false} DigitsOfDecimal(n: nat)
    ensures DigitsValue(Decimal(n)) == n
  {
    if n >= 10 {
      DigitsOfDecimal(n / 10);
      assert Decimal(n)[..|Decimal(n)| - 1] == Decimal(n / 10);
    } else {
      assert Decimal(n)[..0] == "";
    }
  }

  /** A port label holding a port's decimal digits, with a sign or not, is read as that port. */
  lemma AtoiReadsDecimals(n: nat)
    requires n <= MaxInt
    ensures Atoi(Decimal(n)) == Some(n as int)
    ensures Atoi("+" + Decimal(n)) == Some(n as int)
    ensures Atoi("-" + Decimal(n)) == Some(-(n as int))
  {
    DigitsOfDecimal(n);
    assert IsDigit(Decimal(n)[0]);
    assert ("+" + Decimal(n))[1..] == Decimal(n) && ("-" + Decimal(n))[1..] == Decimal(n);
  }

  lemma {:induction false} DigitsAppend(a: string, c: char)
    requires (forall x <- a :: IsDigit(x)) && IsDigit(c)
    ensures forall x <- a + [c] :: IsDigit(x)
    ensures DigitsValue(a + [c]) == 10 * DigitsValue(a) + (c as int - '0' as int)
  {
    assert (a + [c])[..|a|] == a;
  }

  /** Leading zeros do not count. */
  lemma {:induction false} LeadingZero(digits: string)
    requires digits != "" && forall c <- digits :: IsDigit(c)
    ensures forall c <- "0" + digits :: IsDigit(c)
    ensures DigitsValue("0" + digits) == DigitsValue(digits)
  {
    var k := |digits| - 1;
    var init, last := digits[..k], digits[k];
    assert digits == init + [last];
    assert last in digits;
    assert "0" + digits == ("0" + init) + [last];
    DigitsAppend(init, last);
    if init == "" {
      assert "0" + init == "" + ['0'];
      DigitsAppend("", '0');
    } else {
      LeadingZero(init);
    }
    DigitsAppend("0" + init, last);
  }

  function Zeros(z: nat): string { if z == 0 then "" else Zeros(z - 1) + "0" }

  lemma {:induction false} ZerosCommute(z: nat)
    ensures Zeros(z) + "0" == "0" + Zeros(z)
  {
    if z > 0 {
      ZerosCommute(z - 1);
      assert "0" + Zeros(z) == ("0" + Zeros(z - 1)) + "0";
    }
  }

  lemma OneMoreDigit(n: nat, d: nat)
    requires d < 10
    ensures Decimal(d) == [('0' as int + d) as char]
    ensures n > 0 ==> Decimal(10 * n + d) == Decimal(n) + Decimal(d)
  {
    assert (10 * n + d) % 10 == d && (10 * n + d) / 10 == n;
  }

  /** Decimal notation: ten digits, and one more for each factor of ten. */
  lemma DecimalNotation(n: nat, d: nat)
    requires d < 10
    ensures Decimal(d) == ["0123456789"[d]]
    ensures n > 0 ==> Decimal(10 * n + d) == Decimal(n) + ["0123456789"[d]]
  {
    OneMoreDigit(n, d);
    assert "0123456789"[d] as int == '0' as int + d;
  }

  /** `s` is some zeros and `n` in decimal notation. */
  ghost predicate Numeral(s: string, n: nat) { exists z: nat :: s == Zeros(z) + Decimal(n) }

  lemma NumeralStep(init: string, v: nat, d: nat)
    requires d < 10 && Numeral(init, v)
    ensures Numeral(init + Decimal(d), 10 * v + d)
  {
    OneMoreDigit(v, d);
    OneMoreDigit(0, 0);
    assert Decimal(0) == "0";
    hide Decimal;
    var z: nat :| init == Zeros(z) + Decimal(v);
    if v == 0 {
      assert init == Zeros(z + 1);
      assert init + Decimal(d) == Zeros(z + 1) + Decimal(d);
    } else {
      assert init + Decimal(d) == Zeros(z) + Decimal(10 * v + d);
    }
  }

  lemma LastDigit(digits: string)
    requires digits != "" && forall c <- digits :: IsDigit(c)
    ensures var init := digits[..|digits| - 1];
            && (forall c <- init :: IsDigit(c))
            && exists d: nat :: d < 10 && Decimal(d) == digits[|digits| - 1..]
                                && DigitsValue(digits) == 10 * DigitsValue(init) + d
  {
    var k := |digits| - 1;
    assert digits[k] in digits;
    var d: nat := digits[k] as int - '0' as int;
    assert digits[k..] == [digits[k]];
    OneMoreDigit(0, d);
    assert Decimal(d) == digits[k..];
  }

  /** Digits are a numeral of their value. */
  lemma {:induction false} DigitsAreNumeral(digits: string)
    requires digits != "" && forall c <- digits :: IsDigit(c)
    ensures Numeral(digits, DigitsValue(digits))
  {
    var k := |digits| - 1;
    var init := digits[..k];
    LastDigit(digits);
    var d: nat :| d < 10 && Decimal(d) == digits[k..] && DigitsValue(digits) == 10 * DigitsValue(init) + d;
    assert digits == init + digits[k..];
    if init == "" {
      assert DigitsValue(init) == 0;
      hide DigitsValue, Decimal;
      assert digits == Zeros(0) + Decimal(d);
    } else {
      DigitsAreNumeral(init);
      hide DigitsValue, Decimal, Numeral;
      NumeralStep(init, DigitsValue(init), d);
    }
  }

  lemma {:induction false} NumeralIsDigits(z: nat, n: nat)
    ensures var d := Zeros(z) + Decimal(n);
            d != "" && (forall c <- d :: IsDigit(c)) && DigitsValue(d) == n
  {
    hide DigitsValue, Decimal;
    if z == 0 {
      assert Zeros(0) + Decimal(n) == Decimal(n);
      DigitsOfDecimal(n);
    } else {
      NumeralIsDigits(z - 1, n);
      var d := Zeros(z - 1) + Decimal(n);
      LeadingZero(d);
      ZerosCommute(z - 1);
      assert Zeros(z) + Decimal(n) == "0" + d;
    }
  }

  /** How `n` may be written: an optional sign before a numeral, and a minus before one that is not positive. */
  ghost predicate Writes(s: string, n: int) {
    || (n >= 0 && Numeral(s, n))
    || (n >= 0 && s != "" && s[0] == '+' && Numeral(s[1..], n))
    || (n <= 0 && s != "" && s[0] == '-' && Numeral(s[1..], -n))
  }

  /** What a port is read as, from a label or an endpoint: exactly the number that is written, within 64 bits. */
  lemma AtoiIff(s: string, n: int)
    ensures Atoi(s) == Some(n) <==> Writes(s, n) && -0x8000_0000_0000_0000 <= n < 0x8000_0000_0000_0000
  {
    if Atoi(s).Some? {
      DigitsAreNumeral(if s[0] == '+' || s[0] == '-' then s[1..] else s);
    }
    if Writes(s, n) { WrittenIsRead(s, n); }
  }

  lemma WrittenIsRead(s: string, n: int)
    requires Writes(s, n)
    ensures Atoi(s) == if -0x8000_0000_0000_0000 <= n < 0x8000_0000_0000_0000 then Some(n) else None
  {
    if n >= 0 && Numeral(s, n) {
      var z: nat :| s == Zeros(z) + Decimal(n);
      NumeralIsDigits(z, n);
      assert IsDigit(s[0]) by { assert s[0] in s; }
    } else {
      var m: nat := if n < 0 then -n else n;
      var z: nat :| s[1..] == Zeros(z) + Decimal(m);
      NumeralIsDigits(z, m);
    }
  }

  // -------------------------------------------------------------- address

  /** The networks the container has an address on. */
  function Reachable(networks: map<string, string>): set<string> {
    set n <- networks | networks[n] != ""
  }

  /** The address on the configured network, else on the least-named network that has one. */
  ghost function AddressOf(c: Container, preferred: string): Result<string, SkipCause> {
    if preferred != "" then
      if preferred in Reachable(c.networks) then Ok(c.networks[preferred]) else Err(NoAddressOn(preferred))
    else
      var ns := Reachable(c.networks);
      if ns == {} then Err(NoReachableAddress) else Ok(c.networks[Least(ns)])
  }

  /** `address`: whatever order Go visits the networks in, the choice is AddressOf's. */
  method Address(c: Container, preferred: string) returns (r: Result<string, SkipCause>)
    ensures r == AddressOf(c, preferred)
  {
    hide Less, SortedSet;
    if preferred != "" {
      if preferred in c.networks && c.networks[preferred] != "" { return Ok(c.networks[preferred]); }
      return Err(NoAddressOn(preferred));
    }
    var names := SortedKeys(c.networks);
    assert StrictBy(names, Self);
    for i := 0 to |names|
      invariant forall j :: 0 <= j < i ==> c.networks[names[j]] == ""
    {
      assert names[i] in names;
      if c.networks[names[i]] != "" {
        FirstIsLeast(c.networks, names, i);
        return Ok(c.networks[names[i]]);
      }
    }
    forall n ensures n !in Reachable(c.networks) {
      assert n in c.networks ==> n in names;
    }
    assert Reachable(c.networks) == {};
    return Err(NoReachableAddress);
  }

  lemma FirstIsLeast(networks: map<string, string>, names: seq<string>, i: nat)
    requires StrictBy(names, Self)
    requires forall k :: k in names <==> k in networks
    requires i < |names| && networks[names[i]] != ""
    requires forall j :: 0 <= j < i ==> networks[names[j]] == ""
    ensures Reachable(networks) != {} && names[i] == Least(Reachable(networks))
  {
    var ns := Reachable(networks);
    assert names[i] in ns;
    forall n <- ns ensures n == names[i] || Less(names[i], n) {
      var j :| 0 <= j < |names| && names[j] == n;
      assert j > i ==> Less(Self(names[i]), Self(names[j]));
    }
    LeastUnique(names[i], ns);
  }

  // -------------------------------------------------------------- service

  /** The service the labels describe, or the first reason in this order that there is none. */
  ghost function ServiceOf(c: Container, preferred: string): Result<Service, SkipCause> {
    var name := NormalizeName(LabelOr(c, LabelName));
    if name == "" then Err(NotCoreNet)
    else match ValidateName(name)
      case Some(cause) => Err(BadServiceName(name, cause))
      case None =>
        var kind := LabelOr(c, LabelService);
        if kind == "" then Err(NoServiceLabel)
        else if kind != ServiceHTTP then Err(UnsupportedService(kind))
        else if LabelPort !in c.labels then Err(NoPortLabel)
        else
          var port := Atoi(c.labels[LabelPort]);
          if port == None || !ValidPort(port.value) then Err(InvalidPort(c.labels[LabelPort]))
          else match AddressOf(c, preferred)
            case Err(e) => Err(e)
            case Ok(address) => Ok(Service(name, address, port.value, SourceDocker))
  }

  /** A usable container's service passes every check SetDocker will make of it again. */
  lemma ServiceOfAcceptable(c: Container, preferred: string)
    requires ServiceOf(c, preferred).Ok?
    ensures var s := ServiceOf(c, preferred).value;
            Acceptable(s) && NormalizeName(s.name) == s.name && s.source == SourceDocker
  {
    var s := ServiceOf(c, preferred).value;
    ValidIsNormal(s.name);
  }

  method ToService(c: Container, preferred: string) returns (r: Result<Service, SkipCause>)
    ensures r == ServiceOf(c, preferred)
  {
    var name := NormalizeName(LabelOr(c, LabelName));
    if name == "" { return Err(NotCoreNet); }
    var problem := ValidateName(name);
    if problem.Some? { return Err(BadServiceName(name, problem.value)); }
    var kind := LabelOr(c, LabelService);
    if kind != ServiceHTTP {
      return Err(if kind == "" then NoServiceLabel else UnsupportedService(kind));
    }
    if LabelPort !in c.labels { return Err(NoPortLabel); }
    var raw := c.labels[LabelPort];
    var port := Atoi(raw);
    if port == None || port.value < 1 || port.value > 65535 { return Err(InvalidPort(raw)); }
    var address := Address(c, preferred);
    if address.Err? { return Err(address.error); }
    return Ok(Service(name, address.value, port.value, SourceDocker));
  }

  /** The address `discovery` dials: that on the configured network, or on the first network in byte order that has one. */
  ghost predicate Dialled(c: Container, preferred: string, address: string) {
    && address != ""
    && if preferred != "" then preferred in c.networks && c.networks[preferred] == address
       else exists net :: OnFirst(c.networks, net, address)
  }

  ghost predicate OnFirst(networks: map<string, string>, net: string, address: string) {
    net in networks && networks[net] == address
    && forall o <- networks :: networks[o] != "" && o != net ==> Before(net, o)
  }

  lemma DialledIff(c: Container, preferred: string, address: string)
    ensures AddressOf(c, preferred) == Ok(address) <==> Dialled(c, preferred, address)
  {
    hide Less, Before;
    var ns := Reachable(c.networks);
    forall net, o ensures Less(net, o) <==> Before(net, o) { LessIsByteOrder(net, o); }
    if preferred == "" {
      forall net | address != "" && OnFirst(c.networks, net, address) ensures net in ns && net == Least(ns) {
        LeastUnique(net, ns);
      }
      if ns != {} && c.networks[Least(ns)] == address { assert OnFirst(c.networks, Least(ns), address); }
    }
  }

  /**
   Which containers are services, and which: exactly those whose labels give a
   valid name, the kind "http" and a port in range, and that have an address to dial.
   */
  lemma ServiceIff(c: Container, preferred: string, s: Service)
    ensures ServiceOf(c, preferred) == Ok(s) <==>
              && "corenet.name" in c.labels && s.name == NormalizeName(c.labels["corenet.name"]) && Valid(s.name)
              && "corenet.service" in c.labels && c.labels["corenet.service"] == "http"
              && "corenet.port" in c.labels && Atoi(c.labels["corenet.port"]) == Some(s.port) && 1 <= s.port <= 65535
              && s.source == "docker"
              && Dialled(c, preferred, s.address)
  {
    EmptyIsNoName();
    hide NormalizeName, Atoi, AddressOf, Dialled;
    forall address ensures AddressOf(c, preferred) == Ok(address) <==> Dialled(c, preferred, address) {
      DialledIff(c, preferred, address);
    }
    hide ValidateName;
  }

  lemma EmptyIsNoName()
    ensures NormalizeName("") == "" && !Valid("")
  {}

  /** Why a container is not a service: the first of these reasons, in this order. */
  lemma SkipReason(c: Container, preferred: string)
    ensures var name := NormalizeName(if "corenet.name" in c.labels then c.labels["corenet.name"] else "");
            var kind := if "corenet.service" in c.labels then c.labels["corenet.service"] else "";
            match ServiceOf(c, preferred)
            case Ok(_) => Valid(name) && kind == "http"
            case Err(NotCoreNet) => name == ""
            case Err(BadServiceName(n, cause)) => n == name != "" && ValidateName(name) == Some(cause)
            case Err(NoServiceLabel) => Valid(name) && kind == ""
            case Err(UnsupportedService(k)) => Valid(name) && k == kind && kind != "" && kind != "http"
            case Err(NoPortLabel) => Valid(name) && kind == "http" && "corenet.port" !in c.labels
            case Err(InvalidPort(raw)) =>
              && Valid(name) && kind == "http" && "corenet.port" in c.labels && raw == c.labels["corenet.port"]
              && !exists p :: 1 <= p <= 65535 && Atoi(raw) == Some(p)
            case Err(NoAddressOn(net)) =>
              Valid(name) && kind == "http" && net == preferred != "" && !(net in c.networks && c.networks[net] != "")
            case Err(NoReachableAddress) =>
              Valid(name) && kind == "http" && preferred == "" && forall net <- c.networks :: c.networks[net] == ""
  {
    EmptyIsNoName();
    hide NormalizeName, ValidateName, Atoi;
    if preferred == "" && Reachable(c.networks) == {} {
      forall net <- c.networks ensures c.networks[net] == "" { assert net !in Reachable(c.networks); }
    }
  }

  /** What owners are called: the first name without its slash, and without such a name the ID, cut after twelve characters. */
  lemma DisplayNameIs(c: Container)
    ensures |c.names| > 0 && |c.names[0]| > 1 ==> exists slash :: c.names[0] == [slash] + DisplayName(c)
    ensures |c.names| == 0 || |c.names[0]| <= 1 ==>
              DisplayName(c) <= c.id && |DisplayName(c)| == if |c.id| < 12 then |c.id| else 12
  {
    if |c.names| > 0 && |c.names[0]| > 1 { assert c.names[0] == [c.names[0][0]] + DisplayName(c); }
  }

  /** Two containers with the same identity and labels and the same reachable addresses are the same service. */
  lemma OnlyReachableNetworksMatter(a: Container, b: Container, preferred: string)
    requires a.labels == b.labels
    requires Reachable(a.networks) == Reachable(b.networks)
    requires forall n <- Reachable(a.networks) :: a.networks[n] == b.networks[n]
    ensures ServiceOf(a, preferred) == ServiceOf(b, preferred)
  {
    assert AddressOf(a, preferred) == AddressOf(b, preferred);
    assert LabelOr(a, LabelName) == LabelOr(b, LabelName);
  }
}
