/** Loading the gateway's configuration: apexes, routes and aliases, with drop-in files merged first. */
module GatewayConfig {
  import opened Bytes
  import opened Options
  import opened FirstWins
  import opened Hostnames

  type Text = seq<Byte>

  datatype DomainDecl = DomainDecl(suffix: Text, fallthrough: Option<Text>)
  datatype RouteDecl = RouteDecl(apex: Text, subdomain: Text, backend: Text)
  datatype AliasDecl = AliasDecl(apex: Text, subdomain: Text, node: Text, port: Option<nat>)
  datatype CertDecl = CertDecl(host: Text, cert: Text, key: Text)

  /** A parsed file. `settings` is everything that is not an apex, a route, an alias or a certificate. */
  datatype FileConfig = FileConfig(
    settings: Text,
    domains: seq<DomainDecl>,
    routes: seq<RouteDecl>,
    aliases: seq<AliasDecl>,
    certs: seq<CertDecl>)

  datatype Fallthrough = IrohMode | NoneMode | ParkedMode

  datatype Apex = Apex(suffix: Text, fallthrough: Fallthrough)
  datatype Key = Key(apex: Text, subdomain: Text)
  datatype Target = Target(node: Text, port: Option<nat>)
  datatype Route = Route(key: Key, backend: Text, fallback: Option<Target>)
  datatype Alias = Alias(key: Key, target: Target)
  datatype CertEntry = CertEntry(host: Text, cert: Text, key: Text)

  datatype Loaded = Loaded(
    settings: Text,
    apexes: seq<Apex>,
    routes: seq<Route>,
    aliases: seq<Alias>,
    certs: seq<CertEntry>)

  /** Foreign parsers: socket addresses, z32 node ids, and the remaining settings, which may be refused. */
  datatype Env = Env(
    parseAddr: Text -> Option<Text>,
    isNode: Text -> bool,
    settle: Text -> Option<Text>,
    isBlank: Text -> bool)

  // One declaration at a time.

  function ParseFallthrough(s: Option<Text>): (r: Option<Fallthrough>) {
    if s == None || s == Some(Ascii("iroh")) then Some(IrohMode)
    else if s == Some(Ascii("none")) then Some(NoneMode)
    else if s == Some(Ascii("parked")) then Some(ParkedMode)
    else None
  }

  /** A bad apex is fatal. A wildcard is no host name. */
  function ApexOf(d: DomainDecl): (r: Option<Apex>) {
    if !IsHostname(Lower(d.suffix)) then None
    else
      match ParseFallthrough(d.fallthrough)
      case None => None
      case Some(mode) => Some(Apex(Lower(d.suffix), mode))
  }

  function Suffix(a: Apex): (s: Text) { a.suffix }

  function RouteKey(r: Route): (k: Key) { r.key }

  function AliasKey(a: Alias): (k: Key) { a.key }

  function CertHost(c: CertEntry): (h: Text) { c.host }

  /** A bad route is skipped. The empty subdomain is the bare apex. */
  function RouteOf(env: Env, apexes: seq<Apex>, d: RouteDecl): (r: Option<Route>) {
    var key := Key(Lower(d.apex), Lower(d.subdomain));
    if Find(apexes, Suffix, key.apex).None? then None
    else if key.subdomain != [] && !IsHostname(key.subdomain) then None
    else
      match env.parseAddr(d.backend)
      case None => None
      case Some(backend) => Some(Route(key, backend, None))
  }

  /** A bad alias is skipped too, and an empty subdomain is bad. */
  function AliasOf(env: Env, apexes: seq<Apex>, d: AliasDecl): (r: Option<Alias>) {
    var key := Key(Lower(d.apex), Lower(d.subdomain));
    if Find(apexes, Suffix, key.apex).None? then None
    else if !IsHostname(key.subdomain) then None
    else if !env.isNode(d.node) then None
    else Some(Alias(key, Target(d.node, d.port)))
  }

  function CertOf(env: Env, c: CertDecl): (r: Option<CertEntry>) {
    if !IsHostname(Lower(c.host)) || env.isBlank(c.cert) || env.isBlank(c.key) then None
    else Some(CertEntry(Lower(c.host), c.cert, c.key))
  }

  // Whole lists.

  function ApexPicker(): (f: DomainDecl -> Option<Apex>) { d => ApexOf(d) }

  function RoutePicker(env: Env, apexes: seq<Apex>): (f: RouteDecl -> Option<Route>) { d => RouteOf(env, apexes, d) }

  function AliasPicker(env: Env, apexes: seq<Apex>): (f: AliasDecl -> Option<Alias>) { d => AliasOf(env, apexes, d) }

  /** Aliases that no route shadows. */
  function FreePicker(routes: seq<Route>): (f: Alias -> Option<Alias>) {
    (a: Alias) => if Find(routes, RouteKey, a.key).Some? then None else Some(a)
  }

  predicate DomainsOk(ds: seq<DomainDecl>) {
    ds != [] && forall i :: 0 <= i < |ds| ==> ApexOf(ds[i]).Some?
  }

  function Apexes(ds: seq<DomainDecl>): (r: seq<Apex>) {
    Keep(Pick(ds, ApexPicker()), Suffix)
  }

  function ValidRoutes(env: Env, apexes: seq<Apex>, ds: seq<RouteDecl>): (r: seq<Route>) {
    Pick(ds, RoutePicker(env, apexes))
  }

  function ValidAliases(env: Env, apexes: seq<Apex>, ds: seq<AliasDecl>): (r: seq<Alias>) {
    Pick(ds, AliasPicker(env, apexes))
  }

  function BareRoutes(env: Env, apexes: seq<Apex>, ds: seq<RouteDecl>): (r: seq<Route>) {
    Keep(ValidRoutes(env, apexes, ds), RouteKey)
  }

  /** The last valid alias on a route's key becomes its fallback. */
  function WithFallback(r: Route, valid: seq<Alias>): (r': Route)
    ensures r'.key == r.key && r'.backend == r.backend
  {
    match FindLast(valid, AliasKey, r.key)
    case None => r
    case Some(a) => r.(fallback := Some(a.target))
  }

  function WithFallbacks(routes: seq<Route>, valid: seq<Alias>): (r: seq<Route>)
    ensures |r| == |routes|
  {
    seq(|routes|, i requires 0 <= i < |routes| => WithFallback(routes[i], valid))
  }

  function FreeAliases(routes: seq<Route>, valid: seq<Alias>): (r: seq<Alias>) {
    Keep(Pick(valid, FreePicker(routes)), AliasKey)
  }

  function CertPicker(env: Env): (f: CertDecl -> Option<CertEntry>) { c => CertOf(env, c) }

  function Certs(env: Env, cs: seq<CertDecl>): (r: seq<CertEntry>) {
    Keep(Pick(cs, CertPicker(env)), CertHost)
  }

  function Normalized(env: Env, file: FileConfig): (r: Option<Loaded>) {
    if !DomainsOk(file.domains) then None
    else
      match env.settle(file.settings)
      case None => None
      case Some(settings) =>
        var apexes := Apexes(file.domains);
        var routes := BareRoutes(env, apexes, file.routes);
        var valid := ValidAliases(env, apexes, file.aliases);
        Some(Loaded(settings, apexes, WithFallbacks(routes, valid), FreeAliases(routes, valid), Certs(env, file.certs)))
  }

  // The loops.

  lemma ApexesSnoc(ds: seq<DomainDecl>, i: nat, a: Apex)
    requires i < |ds| && ApexOf(ds[i]) == Some(a)
    ensures Apexes(ds[..i + 1])
            == if Find(Apexes(ds[..i]), Suffix, a.suffix).Some? then Apexes(ds[..i]) else Apexes(ds[..i]) + [a]
  {
    PickSnoc(ds, i, ApexPicker());
    KeepSnoc(Pick(ds[..i], ApexPicker()), a, Suffix);
  }

  method NormalizeApexes(ds: seq<DomainDecl>) returns (r: Option<seq<Apex>>)
    ensures r == if DomainsOk(ds) then Some(Apexes(ds)) else None
  {
    if ds == [] {
      return None;
    }
    var apexes: seq<Apex> := [];
    for i := 0 to |ds|
      invariant forall j :: 0 <= j < i ==> ApexOf(ds[j]).Some?
      invariant apexes == Apexes(ds[..i])
    {
      var a := ApexOf(ds[i]);
      if a.None? {
        return None;
      }
      ApexesSnoc(ds, i, a.value);
      var at := Search(apexes, Suffix, a.value.suffix);
      if at.None? {
        apexes := apexes + [a.value];
      }
    }
    assert ds[..|ds|] == ds;
    return Some(apexes);
  }

  method NormalizeRoutes(env: Env, apexes: seq<Apex>, ds: seq<RouteDecl>) returns (routes: seq<Route>)
    ensures routes == BareRoutes(env, apexes, ds)
  {
    routes := [];
    for i := 0 to |ds|
      invariant routes == BareRoutes(env, apexes, ds[..i])
    {
      PickSnoc(ds, i, RoutePicker(env, apexes));
      var r := RouteOf(env, apexes, ds[i]);
      if r.None? {
        continue;
      }
      KeepSnoc(ValidRoutes(env, apexes, ds[..i]), r.value, RouteKey);
      var at := Search(routes, RouteKey, r.value.key);
      if at.None? {
        routes := routes + [r.value];
      }
    }
    assert ds[..|ds|] == ds;
  }

  lemma FallbackStep(bare: seq<Route>, valid: seq<Alias>, a: Alias, at: nat)
    requires Distinct(bare, RouteKey) && at < |bare| && bare[at].key == a.key
    ensures WithFallbacks(bare, valid + [a])
            == WithFallbacks(bare, valid)[at := WithFallbacks(bare, valid)[at].(fallback := Some(a.target))]
  {
    assert (valid + [a])[..|valid|] == valid;
    forall i | 0 <= i < |bare| && i != at ensures bare[i].key != a.key {
      assert RouteKey(bare[i]) != RouteKey(bare[at]);
    }
  }

  lemma NoFallbackStep(bare: seq<Route>, valid: seq<Alias>, a: Alias)
    requires forall i :: 0 <= i < |bare| ==> bare[i].key != a.key
    ensures WithFallbacks(bare, valid + [a]) == WithFallbacks(bare, valid)
  {
    assert (valid + [a])[..|valid|] == valid;
  }

  lemma FreeStep(bare: seq<Route>, valid: seq<Alias>, a: Alias)
    ensures Find(bare, RouteKey, a.key).Some? ==> FreeAliases(bare, valid + [a]) == FreeAliases(bare, valid)
    ensures Find(bare, RouteKey, a.key).None? ==>
              FreeAliases(bare, valid + [a])
              == if Find(FreeAliases(bare, valid), AliasKey, a.key).Some? then FreeAliases(bare, valid)
                 else FreeAliases(bare, valid) + [a]
  {
    var f := FreePicker(bare);
    assert (valid + [a])[..|valid|] == valid;
    assert (valid + [a])[..|valid| + 1] == valid + [a];
    PickSnoc(valid + [a], |valid|, f);
    KeepSnoc(Pick(valid, f), a, AliasKey);
  }

  /** Fallbacks do not change which keys there are. */
  lemma {:induction false} FindThroughFallbacks(bare: seq<Route>, valid: seq<Alias>, k: Key)
    ensures Find(WithFallbacks(bare, valid), RouteKey, k)
            == match Find(bare, RouteKey, k) case None => None case Some(r) => Some(WithFallback(r, valid))
    decreases |bare|
  {
    if bare != [] {
      var n := |bare| - 1;
      FindThroughFallbacks(bare[..n], valid, k);
      assert WithFallbacks(bare, valid)[..n] == WithFallbacks(bare[..n], valid);
    }
  }

  /** Shadowed aliases are written onto their route in place; the others are collected. */
  method NormalizeAliases(env: Env, apexes: seq<Apex>, bare: seq<Route>, ds: seq<AliasDecl>)
    returns (routes: seq<Route>, aliases: seq<Alias>)
    requires Distinct(bare, RouteKey)
    ensures routes == WithFallbacks(bare, ValidAliases(env, apexes, ds))
    ensures aliases == FreeAliases(bare, ValidAliases(env, apexes, ds))
  {
    routes, aliases := bare, [];
    ghost var valid: seq<Alias> := [];
    for i := 0 to |ds|
      invariant valid == ValidAliases(env, apexes, ds[..i])
      invariant routes == WithFallbacks(bare, valid) && aliases == FreeAliases(bare, valid)
    {
      PickSnoc(ds, i, AliasPicker(env, apexes));
      var a := AliasOf(env, apexes, ds[i]);
      if a.None? {
        continue;
      }
      FreeStep(bare, valid, a.value);
      FindThroughFallbacks(bare, valid, a.value.key);
      var at := Search(routes, RouteKey, a.value.key);
      if at.Some? {
        FallbackStep(bare, valid, a.value, at.value);
        routes := routes[at.value := routes[at.value].(fallback := Some(a.value.target))];
      } else {
        FindSpec(bare, RouteKey, a.value.key);
        NoFallbackStep(bare, valid, a.value);
        var seen := Search(aliases, AliasKey, a.value.key);
        if seen.None? {
          aliases := aliases + [a.value];
        }
      }
      valid := valid + [a.value];
    }
    assert ds[..|ds|] == ds;
  }

  method NormalizeCerts(env: Env, cs: seq<CertDecl>) returns (r: seq<CertEntry>)
    ensures r == Certs(env, cs)
  {
    r := [];
    for i := 0 to |cs|
      invariant r == Certs(env, cs[..i])
    {
      PickSnoc(cs, i, CertPicker(env));
      var c := CertOf(env, cs[i]);
      if c.None? {
        continue;
      }
      KeepSnoc(Pick(cs[..i], CertPicker(env)), c.value, CertHost);
      var at := Search(r, CertHost, c.value.host);
      if at.None? {
        r := r + [c.value];
      }
    }
    assert cs[..|cs|] == cs;
  }

  method ValidateAndNormalize(env: Env, file: FileConfig) returns (r: Option<Loaded>)
    ensures r == Normalized(env, file)
  {
    var apexes := NormalizeApexes(file.domains);
    if apexes.None? {
      return None;
    }
    var bare := NormalizeRoutes(env, apexes.value, file.routes);
    KeepDistinct(ValidRoutes(env, apexes.value, file.routes), RouteKey);
    var routes, aliases := NormalizeAliases(env, apexes.value, bare, file.aliases);
    var certs := NormalizeCerts(env, file.certs);
    var settings := env.settle(file.settings);
    if settings.None? {
      return None;
    }
    return Some(Loaded(settings.value, apexes.value, routes, aliases, certs));
  }
}
