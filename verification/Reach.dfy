/** From a host to what the file declares for it: loading, routing and reading the target back, end to end. */
module Reach {
  import opened Bytes
  import opened Options
  import opened FirstWins
  import opened Hostnames
  import opened GatewayConfig
  import opened Declarations
  import opened Routing
  import Subdomains

  /** This text is read as the node and port of that alias. */
  predicate Names(file: FileConfig, text: Text, j: nat)
    requires j < |file.aliases|
  {
    Subdomains.ParseZ32(text) == Ok(Target(file.aliases[j].node, file.aliases[j].port))
  }

  /** The fallback of a local answer: the last good alias of the key, if there is one. */
  ghost predicate FallbackNames(env: Env, file: FileConfig, k: Key, fallback: Option<Text>) {
    match fallback
    case None => NoAlias(env, file, k)
    case Some(text) => exists j: nat :: LastAlias(env, file, k, j) && Names(file, text, j)
  }

  /** What the file says should become of a host below this apex. */
  ghost predicate MeantFor(env: Env, file: FileConfig, a: Apex, sub: Text, d: Disposition) {
    var k := Key(a.suffix, sub);
    if !NoRoute(env, file, k) then
      && d.Local? && d.apex == a && d.sub == sub && FallbackNames(env, file, k, d.fallback)
      && exists i: nat :: FirstRoute(env, file, k, i) && env.parseAddr(file.routes[i].backend) == Some(d.backend)
    else if sub != [] && !NoAlias(env, file, k) then
      d.Iroh? && d.apex == a && exists j: nat :: FirstAlias(env, file, k, j) && Names(file, d.target, j)
    else
      match a.fallthrough
      case ParkedMode => d == Parked(a, sub)
      case IrohMode => d == if sub == [] then Reject(EmptySubdomain) else Iroh(a, sub)
      case NoneMode => d == Reject(if sub == [] then EmptySubdomain else NotFound)
  }

  lemma FallbackReaches(env: Env, file: FileConfig, r: Route)
    requires Normalized(env, file).Some? && Subdomains.Z32(env, file) && r in Normalized(env, file).value.routes
    ensures FallbackNames(env, file, r.key, FallbackOf(r))
  {
    RouteIsDeclared(env, file, r);
    Subdomains.LoadedTargetsReach(env, file);
    if r.fallback.Some? {
      var j: nat :| LastAlias(env, file, r.key, j) && file.aliases[j].node == r.fallback.value.node
                    && file.aliases[j].port == r.fallback.value.port;
      assert Names(file, FallbackOf(r).value, j);
    }
  }

  lemma AliasReaches(env: Env, file: FileConfig, al: Alias)
    requires Normalized(env, file).Some? && Subdomains.Z32(env, file) && al in Normalized(env, file).value.aliases
    ensures exists j: nat :: FirstAlias(env, file, al.key, j) && Names(file, Subdomains.Written(al.target), j)
  {
    AliasIsDeclared(env, file, al);
    Subdomains.LoadedTargetsReach(env, file);
    var j: nat :| FirstAlias(env, file, al.key, j)
                  && file.aliases[j].node == al.target.node && file.aliases[j].port == al.target.port;
    assert Names(file, Subdomains.Written(al.target), j);
  }

  lemma RouteThere(env: Env, file: FileConfig, k: Key)
    requires Normalized(env, file).Some? && !NoRoute(env, file, k)
    ensures exists r :: r in Normalized(env, file).value.routes && r.key == k
  {
    var cfg := Normalized(env, file).value;
    DropIns.FirstRouteWins(env, file, k);
    Declarations.RouteFound(env, file, k);
    FindSpec(cfg.routes, RouteKey, k);
  }

  lemma AliasThere(env: Env, file: FileConfig, k: Key)
    requires Normalized(env, file).Some? && NoRoute(env, file, k) && !NoAlias(env, file, k)
    ensures exists al :: al in Normalized(env, file).value.aliases && al.key == k
  {
    var cfg := Normalized(env, file).value;
    var valid := ValidAliases(env, cfg.apexes, file.aliases);
    DropIns.FirstRouteWins(env, file, k);
    DropIns.FirstAliasWins(env, file, k);
    Declarations.RouteFound(env, file, k);
    FallbackFound(env, file, k);
    FindLastSpec(valid, AliasKey, k);
    FindSpec(valid, AliasKey, k);
    FindSpec(cfg.aliases, AliasKey, k);
  }

  lemma RouteThereIff(env: Env, file: FileConfig, a: Apex, sub: Text)
    requires Normalized(env, file).Some?
    ensures (exists r :: HasRoute(Normalized(env, file).value, a, sub, r))
            <==> !NoRoute(env, file, Key(a.suffix, sub))
  {
    var cfg, k := Normalized(env, file).value, Key(a.suffix, sub);
    if !NoRoute(env, file, k) {
      RouteThere(env, file, k);
      var r :| r in cfg.routes && r.key == k;
      assert HasRoute(cfg, a, sub, r);
    }
    if r :| HasRoute(cfg, a, sub, r) {
      RouteIsDeclared(env, file, r);
    }
  }

  lemma AliasThereIff(env: Env, file: FileConfig, a: Apex, sub: Text)
    requires Normalized(env, file).Some? && NoRoute(env, file, Key(a.suffix, sub))
    ensures (exists al :: HasAlias(Normalized(env, file).value, a, sub, al))
            <==> !NoAlias(env, file, Key(a.suffix, sub))
  {
    var cfg, k := Normalized(env, file).value, Key(a.suffix, sub);
    if !NoAlias(env, file, k) {
      AliasThere(env, file, k);
      var al :| al in cfg.aliases && al.key == k;
      assert HasAlias(cfg, a, sub, al);
    }
    if al :| HasAlias(cfg, a, sub, al) {
      AliasIsDeclared(env, file, al);
    }
  }

  lemma BelowReaches(env: Env, file: FileConfig, a: Apex, sub: Text, d: Disposition)
    requires Normalized(env, file).Some? && Subdomains.Z32(env, file)
    requires RuleBelow(Normalized(env, file).value, a, sub, d)
    ensures MeantFor(env, file, a, sub, d)
  {
    var cfg, k := Normalized(env, file).value, Key(a.suffix, sub);
    RouteThereIff(env, file, a, sub);
    if NoRoute(env, file, k) { AliasThereIff(env, file, a, sub); }
    if !NoRoute(env, file, k) {
      var r :| HasRoute(cfg, a, sub, r) && d == Local(a, sub, r.backend, FallbackOf(r));
      RouteIsDeclared(env, file, r);
      FallbackReaches(env, file, r);
    } else if sub != [] && !NoAlias(env, file, k) {
      var al :| HasAlias(cfg, a, sub, al) && d == Iroh(a, Subdomains.Written(al.target));
      AliasReaches(env, file, al);
    }
  }

  /** The longest apex above the host decides, and without one it is refused. */
  ghost predicate HostMeant(env: Env, file: FileConfig, apexes: seq<Apex>, h: Text, d: Disposition) {
    if exists a, sub :: Longest(apexes, h, a, sub) then
      exists a, sub :: Longest(apexes, h, a, sub) && MeantFor(env, file, a, sub, d)
    else d == Reject(DomainMismatch)
  }

  lemma RuleReaches(env: Env, file: FileConfig, cfg: Loaded, h: Text, d: Disposition)
    requires Normalized(env, file) == Some(cfg) && Subdomains.Z32(env, file) && RuleHost(cfg, h, d)
    ensures HostMeant(env, file, cfg.apexes, h, d)
  {
    if exists a, sub :: Longest(cfg.apexes, h, a, sub) {
      var a, sub :| Longest(cfg.apexes, h, a, sub) && RuleBelow(cfg, a, sub, d);
      BelowReaches(env, file, a, sub, d);
    }
  }

  /**
   A host, with or without a port, goes where the file says: below its longest apex, to the backend of
   the first good route, with the node and port of the last good alias to fall back on; without a route to
   the node and port of the first good alias; and else where the apex lets hosts fall.
   */
  lemma HostReaches(env: Env, file: FileConfig, cfg: Loaded, host: Text)
    requires Normalized(env, file) == Some(cfg) && Subdomains.Z32(env, file)
    ensures HostMeant(env, file, cfg.apexes, Lower(WithoutPort(host)), Classify(FromConfig(cfg), host))
  {
    var d := Classify(FromConfig(cfg), host);
    LoadedByRule(env, file, host, d);
    RuleReaches(env, file, cfg, Lower(WithoutPort(host)), d);
  }
}
