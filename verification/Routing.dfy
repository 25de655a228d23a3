/** From a Host value to a disposition: longest apex first, then route, alias and fallthrough. */
module Routing {
  import opened Bytes
  import opened Options
  import opened FirstWins
  import opened Hostnames
  import opened GatewayConfig
  import Subdomains
  import Sorting
  import DropIns

  datatype Table = Table(apexes: seq<Apex>, routes: seq<Route>, aliases: seq<Alias>)

  function Shortness(a: Apex): (k: int) { -|a.suffix| }

  /** Longest suffix first; the sort is stable. */
  function FromConfig(cfg: Loaded): (t: Table) {
    Table(Sorting.Sort(Shortness, cfg.apexes), cfg.routes, cfg.aliases)
  }

  /** The part of a host below a suffix: empty for the suffix itself. */
  function Below(host: Text, suffix: Text): (sub: Option<Text>) {
    if host == suffix then Some([])
    else if |host| > |suffix| && host[|host| - |suffix| - 1..] == [DOT] + suffix
    then Some(host[..|host| - |suffix| - 1])
    else None
  }

  function MatchIn(apexes: seq<Apex>, host: Text): (r: Option<(Apex, Text)>) {
    if apexes == [] then None
    else
      match Below(host, apexes[0].suffix)
      case Some(sub) => Some((apexes[0], sub))
      case None => MatchIn(apexes[1..], host)
  }

  function MatchHost(t: Table, host: Text): (r: Option<(Apex, Text)>) {
    MatchIn(t.apexes, Lower(host))
  }

  /** This apex and subdomain, and no longer apex. */
  predicate Longest(apexes: seq<Apex>, host: Text, a: Apex, sub: Text) {
    && a in apexes && Below(host, a.suffix) == Some(sub)
    && forall b :: b in apexes && Below(host, b.suffix).Some? ==> |b.suffix| <= |a.suffix|
  }

  lemma BelowIsSuffix(host: Text, suffix: Text)
    requires Below(host, suffix).Some?
    ensures |suffix| <= |host| && host[|host| - |suffix|..] == suffix
  {
    if host != suffix {
      var tail := host[|host| - |suffix| - 1..];
      assert tail[1..] == suffix;
      assert host[|host| - |suffix|..] == tail[1..];
    }
  }

  /** A host is below a suffix exactly when it is the suffix itself, or something, a dot and the suffix. */
  lemma BelowIff(host: Text, suffix: Text, sub: Text)
    ensures Below(host, suffix) == Some(sub) <==> (host == suffix && sub == []) || host == sub + [DOT] + suffix
  {
    if host == sub + [DOT] + suffix {
      assert |host| - |suffix| - 1 == |sub|;
      assert host[|sub|..] == [DOT] + suffix && host[..|sub|] == sub;
    }
    if host != suffix && Below(host, suffix) == Some(sub) {
      assert host == host[..|sub|] + host[|sub|..];
      assert sub + ([DOT] + suffix) == sub + [DOT] + suffix;
    }
  }

  /** Two matching apexes of one length are the same text. */
  lemma SameLengthSameSuffix(host: Text, a: Text, b: Text)
    requires Below(host, a).Some? && Below(host, b).Some? && |a| == |b|
    ensures a == b
  {
    BelowIsSuffix(host, a);
    BelowIsSuffix(host, b);
  }

  lemma {:induction false} MatchInSorted(apexes: seq<Apex>, host: Text)
    requires Sorting.SortedBy(Shortness, apexes)
    ensures match MatchIn(apexes, host)
            case Some((a, sub)) => Longest(apexes, host, a, sub)
            case None => forall b :: b in apexes ==> Below(host, b.suffix).None?
    decreases |apexes|
  {
    if apexes != [] {
      var rest := apexes[1..];
      if Below(host, apexes[0].suffix).Some? {
        forall b | b in apexes ensures |b.suffix| <= |apexes[0].suffix| {
          var i :| 0 <= i < |apexes| && apexes[i] == b;
          assert i == 0 || Shortness(apexes[0]) <= Shortness(apexes[i]);
        }
      } else {
        MatchInSorted(rest, host);
        forall b | b in apexes && Below(host, b.suffix).Some? ensures b in rest {
          assert apexes == [apexes[0]] + rest;
        }
      }
    }
  }

  predicate UniqueSuffixes(apexes: seq<Apex>) {
    forall a, b :: a in apexes && b in apexes && a.suffix == b.suffix ==> a == b
  }

  lemma DistinctUnique(apexes: seq<Apex>)
    requires Distinct(apexes, Suffix)
    ensures UniqueSuffixes(apexes)
  {
    forall a, b | a in apexes && b in apexes && a.suffix == b.suffix ensures a == b {
      var i, j :| 0 <= i < |apexes| && apexes[i] == a && 0 <= j < |apexes| && apexes[j] == b;
      DistinctAt(apexes, Suffix, i, j);
    }
  }

  /** The longest matching apex wins, whatever the order in the file: the answer is fixed by the set of apexes. */
  lemma LongestWins(cfg: Loaded, host: Text, a: Apex, sub: Text)
    requires UniqueSuffixes(cfg.apexes)
    ensures MatchHost(FromConfig(cfg), host) == Some((a, sub)) <==> Longest(cfg.apexes, Lower(host), a, sub)
  {
    var h := Lower(host);
    var sorted := Sorting.Sort(Shortness, cfg.apexes);
    Sorting.SortSorts(Shortness, cfg.apexes);
    Sorting.SortMembers(Shortness, cfg.apexes);
    MatchInSorted(sorted, h);
    if Longest(cfg.apexes, h, a, sub) {
      var (b, bsub) := MatchIn(sorted, h).value;
      SameLengthSameSuffix(h, a.suffix, b.suffix);
    }
  }

  lemma OrderIrrelevant(cfg: Loaded, other: Loaded, host: Text)
    requires UniqueSuffixes(cfg.apexes) && UniqueSuffixes(other.apexes)
    requires forall a :: a in cfg.apexes <==> a in other.apexes
    ensures MatchHost(FromConfig(cfg), host) == MatchHost(FromConfig(other), host)
  {
    var x, y := MatchHost(FromConfig(cfg), host), MatchHost(FromConfig(other), host);
    if x.Some? {
      LongestWins(cfg, host, x.value.0, x.value.1);
      LongestWins(other, host, x.value.0, x.value.1);
    } else if y.Some? {
      LongestWins(cfg, host, y.value.0, y.value.1);
      LongestWins(other, host, y.value.0, y.value.1);
    }
  }

  // Disposition.

  datatype ProxyError = DomainMismatch | EmptySubdomain | NotFound

  datatype Disposition =
    | Local(apex: Apex, sub: Text, backend: Text, fallback: Option<Text>)
    | Iroh(apex: Apex, target: Text)
    | Parked(apex: Apex, sub: Text)
    | Reject(error: ProxyError)

  function Lookup(t: Table, apex: Apex, sub: Text): (r: Option<Route>) {
    Find(t.routes, RouteKey, Key(apex.suffix, Lower(sub)))
  }

  function LookupAlias(t: Table, apex: Apex, sub: Text): (r: Option<Text>) {
    match Find(t.aliases, AliasKey, Key(apex.suffix, Lower(sub)))
    case None => None
    case Some(a) => Some(Subdomains.Written(a.target))
  }

  function FallbackOf(r: Route): (f: Option<Text>) {
    match r.fallback case None => None case Some(t) => Some(Subdomains.Written(t))
  }

  /** Once the apex is known. */
  function ClassifyBelow(t: Table, apex: Apex, sub: Text): (d: Disposition) {
    if sub == [] then
      match Lookup(t, apex, sub)
      case Some(r) => Local(apex, sub, r.backend, FallbackOf(r))
      case None => if apex.fallthrough.ParkedMode? then Parked(apex, sub) else Reject(EmptySubdomain)
    else
      match Lookup(t, apex, sub)
      case Some(r) => Local(apex, sub, r.backend, FallbackOf(r))
      case None =>
        match LookupAlias(t, apex, sub)
        case Some(target) => Iroh(apex, target)
        case None =>
          match apex.fallthrough
          case IrohMode => Iroh(apex, sub)
          case NoneMode => Reject(NotFound)
          case ParkedMode => Parked(apex, sub)
  }

  function Classify(t: Table, host: Text): (d: Disposition) {
    match MatchHost(t, WithoutPort(host))
    case None => Reject(DomainMismatch)
    case Some((apex, sub)) => ClassifyBelow(t, apex, sub)
  }

  // The rule, said without order or search.

  predicate HasRoute(cfg: Loaded, a: Apex, sub: Text, r: Route) {
    r in cfg.routes && r.key == Key(a.suffix, sub)
  }

  predicate HasAlias(cfg: Loaded, a: Apex, sub: Text, al: Alias) {
    al in cfg.aliases && al.key == Key(a.suffix, sub)
  }

  /** Precedence once the apex is known: local route, then alias, then fallthrough; a bare apex has no alias or node. */
  ghost predicate RuleBelow(cfg: Loaded, a: Apex, sub: Text, d: Disposition) {
    if exists r :: HasRoute(cfg, a, sub, r) then
      exists r :: HasRoute(cfg, a, sub, r) && d == Local(a, sub, r.backend, FallbackOf(r))
    else if sub != [] && exists al :: HasAlias(cfg, a, sub, al) then
      exists al :: HasAlias(cfg, a, sub, al) && d == Iroh(a, Subdomains.Written(al.target))
    else
      match a.fallthrough
      case ParkedMode => d == Parked(a, sub)
      case IrohMode => d == if sub == [] then Reject(EmptySubdomain) else Iroh(a, sub)
      case NoneMode => d == Reject(if sub == [] then EmptySubdomain else NotFound)
  }

  /** For a host already in lower case and without a port. */
  ghost predicate RuleHost(cfg: Loaded, h: Text, d: Disposition) {
    if exists a, sub :: Longest(cfg.apexes, h, a, sub) then
      exists a, sub :: Longest(cfg.apexes, h, a, sub) && RuleBelow(cfg, a, sub, d)
    else d == Reject(DomainMismatch)
  }

  ghost predicate Rule(cfg: Loaded, host: Text, d: Disposition) {
    RuleHost(cfg, Lower(WithoutPort(host)), d)
  }

  /** What loading promises about keys. */
  predicate UniqueKeys(cfg: Loaded) {
    UniqueSuffixes(cfg.apexes) && Distinct(cfg.routes, RouteKey) && Distinct(cfg.aliases, AliasKey)
  }

  lemma FindIsOnly<T, K>(xs: seq<T>, key: T -> K, k: K, x: T)
    requires Distinct(xs, key)
    ensures Find(xs, key, k) == Some(x) <==> x in xs && key(x) == k
  {
    FindSpec(xs, key, k);
    if x in xs && key(x) == k {
      var j :| 0 <= j < |xs| && xs[j] == x;
      var i :| 0 <= i < |xs| && Find(xs, key, k) == Some(xs[i]) && key(xs[i]) == k;
      DistinctAt(xs, key, i, j);
    }
  }

  lemma LowerBelow(host: Text, suffix: Text)
    requires Below(Lower(host), suffix).Some?
    ensures Lower(Below(Lower(host), suffix).value) == Below(Lower(host), suffix).value
  {
  }

  lemma RouteFound(cfg: Loaded, a: Apex, sub: Text)
    requires UniqueKeys(cfg) && Lower(sub) == sub
    ensures match Lookup(FromConfig(cfg), a, sub)
            case Some(r) => forall q :: HasRoute(cfg, a, sub, q) <==> q == r
            case None => forall q :: !HasRoute(cfg, a, sub, q)
  {
    forall q ensures HasRoute(cfg, a, sub, q) <==> Lookup(FromConfig(cfg), a, sub) == Some(q) {
      FindIsOnly(cfg.routes, RouteKey, Key(a.suffix, sub), q);
    }
  }

  lemma AliasFound(cfg: Loaded, a: Apex, sub: Text)
    requires UniqueKeys(cfg) && Lower(sub) == sub
    ensures match Find(cfg.aliases, AliasKey, Key(a.suffix, sub))
            case Some(al) => forall q :: HasAlias(cfg, a, sub, q) <==> q == al
            case None => forall q :: !HasAlias(cfg, a, sub, q)
  {
    forall q ensures HasAlias(cfg, a, sub, q) <==> Find(cfg.aliases, AliasKey, Key(a.suffix, sub)) == Some(q) {
      FindIsOnly(cfg.aliases, AliasKey, Key(a.suffix, sub), q);
    }
  }

  lemma BelowIffRule(cfg: Loaded, a: Apex, sub: Text, d: Disposition)
    requires UniqueKeys(cfg) && Lower(sub) == sub
    ensures ClassifyBelow(FromConfig(cfg), a, sub) == d <==> RuleBelow(cfg, a, sub, d)
  {
    RouteFound(cfg, a, sub);
    AliasFound(cfg, a, sub);
    var r := Lookup(FromConfig(cfg), a, sub);
    if r.Some? {
      assert HasRoute(cfg, a, sub, r.value);
    } else {
      var al := Find(cfg.aliases, AliasKey, Key(a.suffix, sub));
      if al.Some? { assert HasAlias(cfg, a, sub, al.value); }
    }
  }

  /** Classification is the rule, for every host and every loaded configuration. */
  lemma ClassifyIffRule(cfg: Loaded, host: Text, d: Disposition)
    requires UniqueKeys(cfg)
    ensures Classify(FromConfig(cfg), host) == d <==> Rule(cfg, host, d)
  {
    var bare := WithoutPort(host);
    var h := Lower(bare);
    var m := MatchHost(FromConfig(cfg), bare);
    forall a, sub ensures m == Some((a, sub)) <==> Longest(cfg.apexes, h, a, sub) {
      LongestWins(cfg, bare, a, sub);
    }
    if m.Some? {
      var (a, sub) := m.value;
      assert Longest(cfg.apexes, h, a, sub);
      LowerBelow(bare, a.suffix);
      BelowIffRule(cfg, a, sub, d);
      assert forall x, y :: Longest(cfg.apexes, h, x, y) ==> x == a && y == sub;
    }
  }

  /** And every configuration that loads qualifies. */
  lemma LoadedByRule(env: Env, file: FileConfig, host: Text, d: Disposition)
    requires Normalized(env, file).Some?
    ensures var cfg := Normalized(env, file).value; Classify(FromConfig(cfg), host) == d <==> Rule(cfg, host, d)
  {
    var cfg := Normalized(env, file).value;
    DropIns.KeysAreUnique(env, file);
    DistinctUnique(cfg.apexes);
    ClassifyIffRule(cfg, host, d);
  }

  lemma {:induction false} WithoutPortLetters(a: Text, b: Text)
    requires SameLetters(a, b)
    ensures SameLetters(WithoutPort(a), WithoutPort(b))
  {
    if a != [] {
      assert SameLetter(a[0], b[0]);
      assert SameLetters(a[1..], b[1..]) by {
        forall i | 0 <= i < |a| - 1 ensures SameLetter(a[1..][i], b[1..][i]) { assert SameLetter(a[i + 1], b[i + 1]); }
      }
      WithoutPortLetters(a[1..], b[1..]);
    }
  }

  /** Hosts that differ in the case of letters only are classified alike. */
  lemma CaseIgnored(t: Table, a: Text, b: Text)
    requires SameLetters(a, b)
    ensures Classify(t, a) == Classify(t, b)
  {
    WithoutPortLetters(a, b);
    LowerIff(WithoutPort(a), WithoutPort(b));
  }

  lemma {:induction false} PortDropped(host: Text, port: Text)
    requires COLON !in host
    ensures WithoutPort(host) == host && WithoutPort(host + [COLON] + port) == host
  {
    if host == [] {
      assert host + [COLON] + port == [COLON] + port;
    } else {
      PortDropped(host[1..], port);
      assert (host + [COLON] + port)[1..] == host[1..] + [COLON] + port;
    }
  }

  /** A port, or anything else after a colon, changes nothing: the host before it goes by the rule. */
  lemma PortIgnored(env: Env, file: FileConfig, host: Text, port: Text, d: Disposition)
    requires Normalized(env, file).Some? && COLON !in host
    ensures var cfg := Normalized(env, file).value;
            && (Classify(FromConfig(cfg), host) == d <==> RuleHost(cfg, Lower(host), d))
            && (Classify(FromConfig(cfg), host + [COLON] + port) == d <==> RuleHost(cfg, Lower(host), d))
  {
    PortDropped(host, port);
    LoadedByRule(env, file, host, d);
    LoadedByRule(env, file, host + [COLON] + port, d);
  }
}
