/** What a loaded configuration holds, read off the declarations of its file. */
module Declarations {
  import opened Bytes
  import opened Options
  import opened FirstWins
  import opened Hostnames
  import opened GatewayConfig
  import opened DropIns

  // What each declaration has to meet.

  predicate Declares(d: DomainDecl, suffix: Text) {
    Lower(d.suffix) == suffix
  }

  predicate Declared(file: FileConfig, apex: Text) {
    exists i :: 0 <= i < |file.domains| && Declares(file.domains[i], apex)
  }

  /** No word means the overlay. */
  predicate Says(d: DomainDecl, mode: Fallthrough) {
    match mode
    case IrohMode => d.fallthrough == None || d.fallthrough == Some(Ascii("iroh"))
    case NoneMode => d.fallthrough == Some(Ascii("none"))
    case ParkedMode => d.fallthrough == Some(Ascii("parked"))
  }

  predicate Named(k: Key, apex: Text, subdomain: Text) {
    k.apex == Lower(apex) && k.subdomain == Lower(subdomain)
  }

  predicate MeetsRoute(env: Env, file: FileConfig, k: Key, d: RouteDecl) {
    && Named(k, d.apex, d.subdomain) && Declared(file, k.apex)
    && (k.subdomain == [] || IsHostname(k.subdomain)) && env.parseAddr(d.backend).Some?
  }

  predicate MeetsAlias(env: Env, file: FileConfig, k: Key, d: AliasDecl) {
    Named(k, d.apex, d.subdomain) && Declared(file, k.apex) && IsHostname(k.subdomain) && env.isNode(d.node)
  }

  predicate MeetsCert(env: Env, host: Text, d: CertDecl) {
    Lower(d.host) == host && IsHostname(host) && !env.isBlank(d.cert) && !env.isBlank(d.key)
  }

  predicate FirstDomain(file: FileConfig, suffix: Text, i: nat) {
    && i < |file.domains| && Declares(file.domains[i], suffix)
    && forall j :: 0 <= j < i ==> !Declares(file.domains[j], suffix)
  }

  predicate FirstRoute(env: Env, file: FileConfig, k: Key, i: nat) {
    && i < |file.routes| && MeetsRoute(env, file, k, file.routes[i])
    && forall j :: 0 <= j < i ==> !MeetsRoute(env, file, k, file.routes[j])
  }

  predicate NoRoute(env: Env, file: FileConfig, k: Key) {
    forall j :: 0 <= j < |file.routes| ==> !MeetsRoute(env, file, k, file.routes[j])
  }

  predicate FirstAlias(env: Env, file: FileConfig, k: Key, i: nat) {
    && i < |file.aliases| && MeetsAlias(env, file, k, file.aliases[i])
    && forall j :: 0 <= j < i ==> !MeetsAlias(env, file, k, file.aliases[j])
  }

  predicate LastAlias(env: Env, file: FileConfig, k: Key, i: nat) {
    && i < |file.aliases| && MeetsAlias(env, file, k, file.aliases[i])
    && forall j :: i < j < |file.aliases| ==> !MeetsAlias(env, file, k, file.aliases[j])
  }

  predicate NoAlias(env: Env, file: FileConfig, k: Key) {
    forall j :: 0 <= j < |file.aliases| ==> !MeetsAlias(env, file, k, file.aliases[j])
  }

  predicate FirstCert(env: Env, file: FileConfig, host: Text, i: nat) {
    && i < |file.certs| && MeetsCert(env, host, file.certs[i])
    && forall j :: 0 <= j < i ==> !MeetsCert(env, host, file.certs[j])
  }

  // The pickers accept exactly these.

  lemma ApexGives(d: DomainDecl, s: Text)
    requires ApexOf(d).Some?
    ensures Gives(ApexPicker(), Suffix, s, d) <==> Declares(d, s)
    ensures forall mode :: ApexOf(d) == Some(Apex(Lower(d.suffix), mode)) <==> Says(d, mode)
  {
    assert Ascii("iroh")[0] == 105 && Ascii("none")[0] == 110 && Ascii("parked")[0] == 112;
  }

  lemma DeclaredIsFound(file: FileConfig, apex: Text)
    requires DomainsOk(file.domains)
    ensures Find(Apexes(file.domains), Suffix, apex).Some? <==> Declared(file, apex)
  {
    var ds, f := file.domains, ApexPicker();
    KeepFinds(Pick(ds, f), Suffix, apex);
    FindPick(ds, f, Suffix, apex);
    forall i | 0 <= i < |ds| ensures Gives(f, Suffix, apex, ds[i]) <==> Declares(ds[i], apex) {
      ApexGives(ds[i], apex);
    }
    if Find(Pick(ds, f), Suffix, apex).Some? {
      var i: nat :| FirstGiving(ds, f, Suffix, apex, i);
      assert Declares(ds[i], apex);
    }
  }

  lemma RouteGives(env: Env, file: FileConfig, k: Key, d: RouteDecl)
    requires DomainsOk(file.domains)
    ensures Gives(RoutePicker(env, Apexes(file.domains)), RouteKey, k, d) <==> MeetsRoute(env, file, k, d)
    ensures MeetsRoute(env, file, k, d) ==>
              RouteOf(env, Apexes(file.domains), d) == Some(Route(k, env.parseAddr(d.backend).value, None))
  {
    DeclaredIsFound(file, Lower(d.apex));
  }

  lemma AliasGives(env: Env, file: FileConfig, k: Key, d: AliasDecl)
    requires DomainsOk(file.domains)
    ensures Gives(AliasPicker(env, Apexes(file.domains)), AliasKey, k, d) <==> MeetsAlias(env, file, k, d)
    ensures MeetsAlias(env, file, k, d) ==>
              AliasOf(env, Apexes(file.domains), d) == Some(Alias(k, Target(d.node, d.port)))
  {
    DeclaredIsFound(file, Lower(d.apex));
  }

  // The declaration behind each key.

  lemma RouteFound(env: Env, file: FileConfig, k: Key)
    requires DomainsOk(file.domains)
    ensures var found := Find(ValidRoutes(env, Apexes(file.domains), file.routes), RouteKey, k);
            && (found.None? <==> NoRoute(env, file, k))
            && (found.Some? ==> exists i: nat :: FirstRoute(env, file, k, i))
            && forall i: nat :: FirstRoute(env, file, k, i) ==>
              found == Some(Route(k, env.parseAddr(file.routes[i].backend).value, None))
  {
    var ds, f := file.routes, RoutePicker(env, Apexes(file.domains));
    forall j | 0 <= j < |ds| ensures Gives(f, RouteKey, k, ds[j]) <==> MeetsRoute(env, file, k, ds[j]) {
      RouteGives(env, file, k, ds[j]);
    }
    FindPick(ds, f, RouteKey, k);
    if Find(Pick(ds, f), RouteKey, k).Some? {
      var i: nat :| FirstGiving(ds, f, RouteKey, k, i);
      assert FirstRoute(env, file, k, i);
    }
    forall i: nat | FirstRoute(env, file, k, i)
      ensures Find(Pick(ds, f), RouteKey, k) == Some(Route(k, env.parseAddr(ds[i].backend).value, None))
    {
      FirstGivingFinds(ds, f, RouteKey, k, i);
      RouteGives(env, file, k, ds[i]);
    }
  }

  lemma AliasFound(env: Env, file: FileConfig, k: Key)
    requires DomainsOk(file.domains)
    ensures var found := Find(ValidAliases(env, Apexes(file.domains), file.aliases), AliasKey, k);
            && (found.Some? ==> exists i: nat :: FirstAlias(env, file, k, i))
            && forall i: nat :: FirstAlias(env, file, k, i) ==>
              found == Some(Alias(k, Target(file.aliases[i].node, file.aliases[i].port)))
  {
    var ds, f := file.aliases, AliasPicker(env, Apexes(file.domains));
    forall j | 0 <= j < |ds| ensures Gives(f, AliasKey, k, ds[j]) <==> MeetsAlias(env, file, k, ds[j]) {
      AliasGives(env, file, k, ds[j]);
    }
    FindPick(ds, f, AliasKey, k);
    if Find(Pick(ds, f), AliasKey, k).Some? {
      var i: nat :| FirstGiving(ds, f, AliasKey, k, i);
      assert FirstAlias(env, file, k, i);
    }
    forall i: nat | FirstAlias(env, file, k, i)
      ensures Find(Pick(ds, f), AliasKey, k) == Some(Alias(k, Target(ds[i].node, ds[i].port)))
    {
      FirstGivingFinds(ds, f, AliasKey, k, i);
      AliasGives(env, file, k, ds[i]);
    }
  }

  lemma FallbackFound(env: Env, file: FileConfig, k: Key)
    requires DomainsOk(file.domains)
    ensures var found := FindLast(ValidAliases(env, Apexes(file.domains), file.aliases), AliasKey, k);
            && (found.None? <==> NoAlias(env, file, k))
            && (found.Some? ==> exists i: nat :: LastAlias(env, file, k, i))
            && forall i: nat :: LastAlias(env, file, k, i) ==>
              found == Some(Alias(k, Target(file.aliases[i].node, file.aliases[i].port)))
  {
    var ds, f := file.aliases, AliasPicker(env, Apexes(file.domains));
    forall j | 0 <= j < |ds| ensures Gives(f, AliasKey, k, ds[j]) <==> MeetsAlias(env, file, k, ds[j]) {
      AliasGives(env, file, k, ds[j]);
    }
    FindLastPick(ds, f, AliasKey, k);
    if FindLast(Pick(ds, f), AliasKey, k).Some? {
      var i: nat :| LastGiving(ds, f, AliasKey, k, i);
      assert LastAlias(env, file, k, i);
    }
    forall i: nat | LastAlias(env, file, k, i)
      ensures FindLast(Pick(ds, f), AliasKey, k) == Some(Alias(k, Target(ds[i].node, ds[i].port)))
    {
      LastGivingFinds(ds, f, AliasKey, k, i);
      AliasGives(env, file, k, ds[i]);
    }
  }

  // The loaded configuration, entry by entry.

  predicate DomainOk(d: DomainDecl) {
    IsHostname(Lower(d.suffix)) && (Says(d, IrohMode) || Says(d, NoneMode) || Says(d, ParkedMode))
  }

  /** Loading fails only on no apex, a bad one, or refused settings; a bad route, alias or certificate never matters. */
  lemma LoadsIff(env: Env, file: FileConfig)
    ensures Normalized(env, file).Some? <==>
            && file.domains != [] && (forall i :: 0 <= i < |file.domains| ==> DomainOk(file.domains[i]))
            && env.settle(file.settings).Some?
    ensures Normalized(env, file).Some? ==> Some(Normalized(env, file).value.settings) == env.settle(file.settings)
  {
    forall i | 0 <= i < |file.domains| ensures ApexOf(file.domains[i]).Some? <==> DomainOk(file.domains[i]) {
      var d := file.domains[i];
      assert ApexOf(d).Some? <==> DomainOk(d);
    }
  }

  lemma ApexFound(file: FileConfig, s: Text)
    requires DomainsOk(file.domains)
    ensures var found := Find(Apexes(file.domains), Suffix, s);
            && (found.Some? ==> exists i: nat :: FirstDomain(file, s, i))
            && forall i: nat :: FirstDomain(file, s, i) ==> found == ApexOf(file.domains[i])
  {
    var ds, f := file.domains, ApexPicker();
    forall j | 0 <= j < |ds| ensures Gives(f, Suffix, s, ds[j]) <==> Declares(ds[j], s) { ApexGives(ds[j], s); }
    KeepFinds(Pick(ds, f), Suffix, s);
    FindPick(ds, f, Suffix, s);
    if Find(Pick(ds, f), Suffix, s).Some? {
      var i: nat :| FirstGiving(ds, f, Suffix, s, i);
      assert FirstDomain(file, s, i);
    }
    forall i: nat | FirstDomain(file, s, i) ensures Find(Pick(ds, f), Suffix, s) == ApexOf(ds[i]) {
      FirstGivingFinds(ds, f, Suffix, s, i);
    }
  }

  /** An apex is the first domain of its name, with what that domain says. */
  lemma ApexIsDeclared(env: Env, file: FileConfig, a: Apex)
    requires Normalized(env, file).Some?
    ensures a in Normalized(env, file).value.apexes <==>
            exists i: nat :: FirstDomain(file, a.suffix, i) && Says(file.domains[i], a.fallthrough)
  {
    KeysAreUnique(env, file);
    FindDistinct(Apexes(file.domains), Suffix, a);
    ApexFound(file, a.suffix);
    forall i: nat | FirstDomain(file, a.suffix, i)
      ensures ApexOf(file.domains[i]) == Some(a) <==> Says(file.domains[i], a.fallthrough)
    {
      ApexGives(file.domains[i], a.suffix);
    }
  }

  /** A route's fallback, from the last alias declared for its key. */
  ghost predicate FallsBack(env: Env, file: FileConfig, k: Key, to: Option<Target>) {
    match to
    case None => NoAlias(env, file, k)
    case Some(t) =>
      exists i: nat :: LastAlias(env, file, k, i) && file.aliases[i].node == t.node && file.aliases[i].port == t.port
  }

  lemma FallbackIs(env: Env, file: FileConfig, k: Key, backend: Text, to: Option<Target>)
    requires DomainsOk(file.domains)
    ensures WithFallback(Route(k, backend, None), ValidAliases(env, Apexes(file.domains), file.aliases)).fallback == to
            <==> FallsBack(env, file, k, to)
  {
    FallbackFound(env, file, k);
    var found := FindLast(ValidAliases(env, Apexes(file.domains), file.aliases), AliasKey, k);
    if found.Some? {
      var i: nat :| LastAlias(env, file, k, i);
      assert found == Some(Alias(k, Target(file.aliases[i].node, file.aliases[i].port)));
      assert !NoAlias(env, file, k);
    }
  }

  /** A route is the first good declaration of its key, falling back to the last good alias of that key. */
  lemma RouteIsDeclared(env: Env, file: FileConfig, r: Route)
    requires Normalized(env, file).Some?
    ensures r in Normalized(env, file).value.routes <==>
            && FallsBack(env, file, r.key, r.fallback)
            && exists i: nat :: (FirstRoute(env, file, r.key, i)
                                 && env.parseAddr(file.routes[i].backend) == Some(r.backend))
  {
    var cfg := Normalized(env, file).value;
    KeysAreUnique(env, file);
    FindDistinct(cfg.routes, RouteKey, r);
    FirstRouteWins(env, file, r.key);
    RouteFound(env, file, r.key);
    FallbackIs(env, file, r.key, r.backend, r.fallback);
    if i: nat :| FirstRoute(env, file, r.key, i) {
      var backend := env.parseAddr(file.routes[i].backend).value;
      assert Find(ValidRoutes(env, cfg.apexes, file.routes), RouteKey, r.key) == Some(Route(r.key, backend, None));
    }
  }

  /** An alias is the first good declaration of its key, its node and its port, where no good route has that key. */
  lemma AliasIsDeclared(env: Env, file: FileConfig, a: Alias)
    requires Normalized(env, file).Some?
    ensures a in Normalized(env, file).value.aliases <==>
            && NoRoute(env, file, a.key)
            && exists i: nat :: (FirstAlias(env, file, a.key, i)
                                 && file.aliases[i].node == a.target.node && file.aliases[i].port == a.target.port)
  {
    var cfg := Normalized(env, file).value;
    KeysAreUnique(env, file);
    FindDistinct(cfg.aliases, AliasKey, a);
    FirstAliasWins(env, file, a.key);
    FirstRouteWins(env, file, a.key);
    RouteFound(env, file, a.key);
    AliasFound(env, file, a.key);
    if i: nat :| FirstAlias(env, file, a.key, i) {
      var made := Alias(a.key, Target(file.aliases[i].node, file.aliases[i].port));
      assert Find(ValidAliases(env, cfg.apexes, file.aliases), AliasKey, a.key) == Some(made);
    }
  }

  lemma CertGives(env: Env, host: Text, d: CertDecl)
    ensures Gives(CertPicker(env), CertHost, host, d) <==> MeetsCert(env, host, d)
    ensures MeetsCert(env, host, d) ==> CertOf(env, d) == Some(CertEntry(host, d.cert, d.key))
  {
  }

  lemma CertFound(env: Env, file: FileConfig, host: Text)
    ensures var found := Find(Certs(env, file.certs), CertHost, host);
            && (found.Some? ==> exists i: nat :: FirstCert(env, file, host, i))
            && forall i: nat :: FirstCert(env, file, host, i) ==>
              found == Some(CertEntry(host, file.certs[i].cert, file.certs[i].key))
  {
    var ds, f := file.certs, CertPicker(env);
    forall j | 0 <= j < |ds| ensures Gives(f, CertHost, host, ds[j]) <==> MeetsCert(env, host, ds[j]) {
      CertGives(env, host, ds[j]);
    }
    KeepFinds(Pick(ds, f), CertHost, host);
    FindPick(ds, f, CertHost, host);
    if Find(Pick(ds, f), CertHost, host).Some? {
      var i: nat :| FirstGiving(ds, f, CertHost, host, i);
      assert FirstCert(env, file, host, i);
    }
    forall i: nat | FirstCert(env, file, host, i)
      ensures Find(Pick(ds, f), CertHost, host) == Some(CertEntry(host, ds[i].cert, ds[i].key))
    {
      FirstGivingFinds(ds, f, CertHost, host, i);
      CertGives(env, host, ds[i]);
    }
  }

  /** A certificate is the first good declaration for its host, each file in its own place. */
  lemma CertIsDeclared(env: Env, file: FileConfig, c: CertEntry)
    requires Normalized(env, file).Some?
    ensures c in Normalized(env, file).value.certs <==>
            exists i: nat :: (FirstCert(env, file, c.host, i)
                              && file.certs[i].cert == c.cert && file.certs[i].key == c.key)
  {
    KeepDistinct(Pick(file.certs, CertPicker(env)), CertHost);
    FindDistinct(Certs(env, file.certs), CertHost, c);
    CertFound(env, file, c.host);
  }
}
