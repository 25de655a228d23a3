/** The certificate's names, derived from the configuration, and the hosts they cover. */
module SanList {
  import opened Bytes
  import opened Options
  import opened FirstWins
  import opened Hostnames
  import opened GatewayConfig
  import opened Routing
  import opened Sequences
  import DropIns

  const STAR: Byte := 42

  function Wild(suffix: Text): (n: Text) { [STAR, DOT] + suffix }

  function Full(sub: Text, suffix: Text): (n: Text) { sub + [DOT] + suffix }

  function Same(t: Text): (k: Text) { t }

  function RouteNamer(suffix: Text): (f: Route -> Option<Text>) {
    (r: Route) => if r.key.apex == suffix then Some(Full(r.key.subdomain, suffix)) else None
  }

  function AliasNamer(suffix: Text): (f: Alias -> Option<Text>) {
    (a: Alias) => if a.key.apex == suffix then Some(Full(a.key.subdomain, suffix)) else None
  }

  /** The names one apex asks for, in order and perhaps more than once. */
  function OwnNames(a: Apex, routes: seq<Route>): (r: seq<Text>) {
    if a.fallthrough.NoneMode? then [a.suffix] + Pick(routes, RouteNamer(a.suffix)) else [Wild(a.suffix), a.suffix]
  }

  function NamesOf(a: Apex, routes: seq<Route>, aliases: seq<Alias>): (r: seq<Text>) {
    OwnNames(a, routes) + Pick(aliases, AliasNamer(a.suffix))
  }

  function Lister(routes: seq<Route>, aliases: seq<Alias>): (f: Apex -> seq<Text>) {
    a => NamesOf(a, routes, aliases)
  }

  function AllNames(apexes: seq<Apex>, routes: seq<Route>, aliases: seq<Alias>): (r: seq<Text>) {
    Flat(apexes, Lister(routes, aliases))
  }

  function Sans(cfg: Loaded): (r: seq<Text>) {
    Keep(AllNames(cfg.apexes, cfg.routes, cfg.aliases), Same)
  }

  // The loops.

  method PushUnique(out: seq<Text>, ghost asked: seq<Text>, v: Text) returns (r: seq<Text>)
    requires out == Keep(asked, Same)
    ensures r == Keep(asked + [v], Same)
  {
    KeepSnoc(asked, v, Same);
    var at := Search(out, Same, v);
    r := if at.None? then out + [v] else out;
  }

  method PushAll<T>(out: seq<Text>, ghost asked: seq<Text>, xs: seq<T>, namer: T -> Option<Text>) returns (r: seq<Text>)
    requires out == Keep(asked, Same)
    ensures r == Keep(asked + Pick(xs, namer), Same)
  {
    r := out;
    assert asked + [] == asked;
    for i := 0 to |xs|
      invariant r == Keep(asked + Pick(xs[..i], namer), Same)
    {
      PickSnoc(xs, i, namer);
      var name := namer(xs[i]);
      if name.Some? {
        r := PushUnique(r, asked + Pick(xs[..i], namer), name.value);
        assert asked + Pick(xs[..i], namer) + [name.value] == asked + (Pick(xs[..i], namer) + [name.value]);
      }
    }
    assert xs[..|xs|] == xs;
  }

  method PushOwn(out: seq<Text>, ghost asked: seq<Text>, a: Apex, routes: seq<Route>) returns (r: seq<Text>)
    requires out == Keep(asked, Same)
    ensures r == Keep(asked + OwnNames(a, routes), Same)
  {
    if a.fallthrough.NoneMode? {
      r := PushUnique(out, asked, a.suffix);
      r := PushAll(r, asked + [a.suffix], routes, RouteNamer(a.suffix));
      Assoc(asked, [a.suffix], Pick(routes, RouteNamer(a.suffix)));
    } else {
      r := PushUnique(out, asked, Wild(a.suffix));
      r := PushUnique(r, asked + [Wild(a.suffix)], a.suffix);
      Assoc(asked, [Wild(a.suffix)], [a.suffix]);
      assert [Wild(a.suffix)] + [a.suffix] == OwnNames(a, routes);
    }
  }

  method PushApex(out: seq<Text>, ghost asked: seq<Text>, a: Apex, routes: seq<Route>, aliases: seq<Alias>)
    returns (r: seq<Text>)
    requires out == Keep(asked, Same)
    ensures r == Keep(asked + NamesOf(a, routes, aliases), Same)
  {
    r := PushOwn(out, asked, a, routes);
    r := PushAll(r, asked + OwnNames(a, routes), aliases, AliasNamer(a.suffix));
    Assoc(asked, OwnNames(a, routes), Pick(aliases, AliasNamer(a.suffix)));
  }

  method DeriveSanList(cfg: Loaded) returns (out: seq<Text>)
    ensures out == Sans(cfg)
  {
    out := [];
    for i := 0 to |cfg.apexes|
      invariant out == Keep(AllNames(cfg.apexes[..i], cfg.routes, cfg.aliases), Same)
    {
      out := PushApex(out, AllNames(cfg.apexes[..i], cfg.routes, cfg.aliases), cfg.apexes[i], cfg.routes, cfg.aliases);
      FlatSnoc(cfg.apexes, i, Lister(cfg.routes, cfg.aliases));
    }
    assert cfg.apexes[..|cfg.apexes|] == cfg.apexes;
  }

  /** No name twice. */
  lemma SansDistinct(cfg: Loaded)
    ensures forall i, j :: 0 <= i < j < |Sans(cfg)| ==> Sans(cfg)[i] != Sans(cfg)[j]
  {
    KeepDistinct(AllNames(cfg.apexes, cfg.routes, cfg.aliases), Same);
    forall i, j | 0 <= i < j < |Sans(cfg)| ensures Sans(cfg)[i] != Sans(cfg)[j] {
      assert Same(Sans(cfg)[i]) != Same(Sans(cfg)[j]);
    }
  }

  // Which names there are.

  lemma KeepSameMembers(xs: seq<Text>, v: Text)
    ensures v in Keep(xs, Same) <==> v in xs
  {
    KeepFinds(xs, Same, v);
    FindSpec(xs, Same, v);
    FindSpec(Keep(xs, Same), Same, v);
  }

  /** A route of a `none` apex, or any alias, whose full name this is. */
  ghost predicate SpelledOut(cfg: Loaded, h: Text) {
    || (exists a, r :: a in cfg.apexes && a.fallthrough.NoneMode? && r in cfg.routes
                       && r.key.apex == a.suffix && h == Full(r.key.subdomain, r.key.apex))
    || (exists a, al :: a in cfg.apexes && al in cfg.aliases
                        && al.key.apex == a.suffix && h == Full(al.key.subdomain, al.key.apex))
  }

  lemma RouteNames(routes: seq<Route>, suffix: Text, v: Text)
    ensures v in Pick(routes, RouteNamer(suffix))
            <==> exists r :: r in routes && r.key.apex == suffix && v == Full(r.key.subdomain, suffix)
  {
    PickMember(routes, RouteNamer(suffix), v);
    if r :| r in routes && r.key.apex == suffix && v == Full(r.key.subdomain, suffix) {
      var i :| 0 <= i < |routes| && routes[i] == r;
      assert RouteNamer(suffix)(routes[i]) == Some(v);
    }
  }

  lemma AliasNames(aliases: seq<Alias>, suffix: Text, v: Text)
    ensures v in Pick(aliases, AliasNamer(suffix))
            <==> exists a :: a in aliases && a.key.apex == suffix && v == Full(a.key.subdomain, suffix)
  {
    PickMember(aliases, AliasNamer(suffix), v);
    if a :| a in aliases && a.key.apex == suffix && v == Full(a.key.subdomain, suffix) {
      var i :| 0 <= i < |aliases| && aliases[i] == a;
      assert AliasNamer(suffix)(aliases[i]) == Some(v);
    }
  }

  /** The list is exactly: every apex, a wildcard for each that is not `none`, and the names spelled out. */
  lemma SansMember(cfg: Loaded, v: Text)
    ensures v in Sans(cfg) <==>
            || (exists a :: a in cfg.apexes && v == a.suffix)
            || (exists a :: a in cfg.apexes && !a.fallthrough.NoneMode? && v == Wild(a.suffix))
            || SpelledOut(cfg, v)
  {
    KeepSameMembers(AllNames(cfg.apexes, cfg.routes, cfg.aliases), v);
    FlatMember(cfg.apexes, Lister(cfg.routes, cfg.aliases), v);
    forall a ensures v in NamesOf(a, cfg.routes, cfg.aliases) <==> NamedBy(cfg, a, v) {
      RouteNames(cfg.routes, a.suffix, v);
      AliasNames(cfg.aliases, a.suffix, v);
    }
  }

  ghost predicate NamedBy(cfg: Loaded, a: Apex, v: Text) {
    || v == a.suffix
    || (!a.fallthrough.NoneMode? && v == Wild(a.suffix))
    || (&& a.fallthrough.NoneMode?
        && exists r :: r in cfg.routes && r.key.apex == a.suffix && v == Full(r.key.subdomain, a.suffix))
    || exists al :: al in cfg.aliases && al.key.apex == a.suffix && v == Full(al.key.subdomain, a.suffix)
  }

  // Coverage: section 6.4.3 of RFC 6125, where a wildcard stands for one whole label.

  predicate OneLabel(sub: Text) {
    sub != [] && DOT !in sub
  }

  predicate Covers(name: Text, h: Text) {
    || name == h
    || (|name| > 2 && name[..2] == [STAR, DOT] && Below(h, name[2..]).Some? && OneLabel(Below(h, name[2..]).value))
  }

  predicate Covered(sans: seq<Text>, h: Text) {
    exists name :: name in sans && Covers(name, h)
  }

  /** No declared name begins with a star. */
  predicate NoStars(cfg: Loaded) {
    && (forall a :: a in cfg.apexes ==> a.suffix != [] && a.suffix[0] != STAR)
    && (forall r :: r in cfg.routes ==> r.key.subdomain == [] || r.key.subdomain[0] != STAR)
    && (forall al :: al in cfg.aliases ==> al.key.subdomain == [] || al.key.subdomain[0] != STAR)
  }

  lemma BoundaryIsDot(h: Text, a: Text)
    requires Below(h, a).Some? && h != a
    ensures |h| > |a| && h[|h| - |a| - 1] == DOT && Below(h, a).value == h[..|h| - |a| - 1]
  {
    assert h[|h| - |a| - 1..][0] == DOT;
  }

  lemma NoOtherBoundary(h: Text, a: Text, b: Text)
    requires Below(h, a).Some? && Below(h, b).Some? && OneLabel(Below(h, b).value) && |b| <= |a|
    ensures h == a || a == b
  {
    if h != a {
      BoundaryIsDot(h, a);
      BoundaryIsDot(h, b);
      SameLengthSameSuffix(h, a, b);
    }
  }

  lemma WildBelow(suffix: Text)
    ensures Below(Wild(suffix), suffix) == Some([STAR])
  {
    var h := Wild(suffix);
    assert h[1..] == [DOT] + suffix && h[..1] == [STAR];
  }

  /** A wildcard that covers a host is the wildcard of the host's own apex, or the host is an apex. */
  lemma WildcardIsOwn(cfg: Loaded, h: Text, a: Apex, sub: Text, b: Apex)
    requires UniqueSuffixes(cfg.apexes) && Longest(cfg.apexes, h, a, sub)
    requires b in cfg.apexes && Below(h, b.suffix).Some? && OneLabel(Below(h, b.suffix).value)
    ensures h == a.suffix || (a == b && OneLabel(sub))
  {
    NoOtherBoundary(h, a.suffix, b.suffix);
  }

  lemma CoverageForth(cfg: Loaded, h: Text, a: Apex, sub: Text, name: Text)
    requires UniqueSuffixes(cfg.apexes) && NoStars(cfg) && Longest(cfg.apexes, h, a, sub)
    requires name in Sans(cfg) && Covers(name, h)
    ensures h == a.suffix || SpelledOut(cfg, h) || (!a.fallthrough.NoneMode? && OneLabel(sub))
  {
    SansMember(cfg, name);
    if b :| b in cfg.apexes && !b.fallthrough.NoneMode? && name == Wild(b.suffix) {
      assert name[2..] == b.suffix;
      if name == h { WildBelow(b.suffix); }
      WildcardIsOwn(cfg, h, a, sub, b);
    } else if name == h && !SpelledOut(cfg, h) {
      assert Below(h, h) == Some([]);
      BelowIsSuffix(h, a.suffix);
    } else if name != h {
      assert name[0] == STAR by { assert name[..2][0] == STAR; }
      SpelledHasNoStar(cfg, name);
    }
  }

  lemma SpelledHasNoStar(cfg: Loaded, name: Text)
    requires NoStars(cfg)
    ensures SpelledOut(cfg, name) ==> name != [] && name[0] != STAR
  {
  }

  /** A host below an apex is covered exactly when it is that apex, is spelled out, or is one label below a wildcard. */
  lemma CoverageIff(cfg: Loaded, h: Text, a: Apex, sub: Text)
    requires UniqueSuffixes(cfg.apexes) && NoStars(cfg) && Longest(cfg.apexes, h, a, sub)
    ensures Covered(Sans(cfg), h) <==>
            (h == a.suffix || SpelledOut(cfg, h) || (!a.fallthrough.NoneMode? && OneLabel(sub)))
  {
    if name :| name in Sans(cfg) && Covers(name, h) {
      CoverageForth(cfg, h, a, sub, name);
    }
    if h == a.suffix || SpelledOut(cfg, h) {
      SansMember(cfg, h);
      assert Covers(h, h);
    } else if !a.fallthrough.NoneMode? && OneLabel(sub) {
      var name := Wild(a.suffix);
      SansMember(cfg, name);
      assert name[2..] == a.suffix && name[..2] == [STAR, DOT];
      assert Covers(name, h);
    }
  }

  // Which hosts the gateway routes and the certificate does not name.

  lemma RoutedIsDeclared(cfg: Loaded, a: Apex, sub: Text)
    requires UniqueKeys(cfg) && a in cfg.apexes && Lower(sub) == sub && a.fallthrough.NoneMode?
    requires !ClassifyBelow(FromConfig(cfg), a, sub).Reject?
    ensures SpelledOut(cfg, Full(sub, a.suffix))
  {
    RouteFound(cfg, a, sub);
    AliasFound(cfg, a, sub);
    var r, al := Lookup(FromConfig(cfg), a, sub), Find(cfg.aliases, AliasKey, Key(a.suffix, sub));
    if r.Some? { assert HasRoute(cfg, a, sub, r.value); } else { assert HasAlias(cfg, a, sub, al.value); }
  }

  lemma BelowIsFull(h: Text, suffix: Text)
    requires Below(h, suffix).Some? && h != suffix
    ensures h == Full(Below(h, suffix).value, suffix)
  {
    assert h == h[..|h| - |suffix| - 1] + h[|h| - |suffix| - 1..];
  }

  /**
   A routed host is left without a name exactly when its apex has a wildcard, it is
   more than one label below it (or a dot and nothing else), and nothing spells it out.
   */
  lemma UncoveredExactly(cfg: Loaded, host: Text, a: Apex, sub: Text)
    requires UniqueKeys(cfg) && NoStars(cfg)
    requires MatchHost(FromConfig(cfg), WithoutPort(host)) == Some((a, sub)) && !Classify(FromConfig(cfg), host).Reject?
    ensures var h := Lower(WithoutPort(host));
            !Covered(Sans(cfg), h)
            <==> !a.fallthrough.NoneMode? && h != a.suffix && !OneLabel(sub) && !SpelledOut(cfg, h)
  {
    var h := Lower(WithoutPort(host));
    LongestWins(cfg, WithoutPort(host), a, sub);
    CoverageIff(cfg, h, a, sub);
    if a.fallthrough.NoneMode? && h != a.suffix {
      LowerBelow(WithoutPort(host), a.suffix);
      RoutedIsDeclared(cfg, a, sub);
      BelowIsFull(h, a.suffix);
    }
  }

  lemma HostnameHasNoStar(s: Text)
    requires IsHostname(s)
    ensures s != [] && s[0] != STAR
  {
    var first := Split(s, DOT)[0];
    assert IsLabel(first);
    assert first[0] == s[0];
  }

  lemma ApexIsHostname(ds: seq<DomainDecl>, a: Apex)
    requires a in Apexes(ds)
    ensures IsHostname(a.suffix)
  {
    var picked := Pick(ds, ApexPicker());
    var i :| 0 <= i < |Apexes(ds)| && Apexes(ds)[i] == a;
    KeepMembers(picked, Suffix, i);
    PickMember(ds, ApexPicker(), a);
  }

  lemma RouteIsNamed(env: Env, apexes: seq<Apex>, ds: seq<RouteDecl>, r: Route)
    requires r in BareRoutes(env, apexes, ds)
    ensures r.key.subdomain == [] || IsHostname(r.key.subdomain)
  {
    var bare := BareRoutes(env, apexes, ds);
    var i :| 0 <= i < |bare| && bare[i] == r;
    KeepMembers(ValidRoutes(env, apexes, ds), RouteKey, i);
    PickMember(ds, RoutePicker(env, apexes), r);
  }

  lemma AliasIsNamed(env: Env, apexes: seq<Apex>, ds: seq<AliasDecl>, routes: seq<Route>, a: Alias)
    requires a in FreeAliases(routes, ValidAliases(env, apexes, ds))
    ensures IsHostname(a.key.subdomain)
  {
    var valid := ValidAliases(env, apexes, ds);
    var free := FreeAliases(routes, valid);
    var i :| 0 <= i < |free| && free[i] == a;
    KeepMembers(Pick(valid, FreePicker(routes)), AliasKey, i);
    PickMember(valid, FreePicker(routes), a);
    PickMember(ds, AliasPicker(env, apexes), a);
  }

  lemma LoadedHasNoStars(env: Env, file: FileConfig)
    requires Normalized(env, file).Some?
    ensures NoStars(Normalized(env, file).value)
  {
    var cfg := Normalized(env, file).value;
    var bare := BareRoutes(env, cfg.apexes, file.routes);
    forall a | a in cfg.apexes ensures a.suffix != [] && a.suffix[0] != STAR {
      ApexIsHostname(file.domains, a);
      HostnameHasNoStar(a.suffix);
    }
    forall r | r in cfg.routes ensures r.key.subdomain == [] || r.key.subdomain[0] != STAR {
      var i :| 0 <= i < |cfg.routes| && cfg.routes[i] == r;
      RouteIsNamed(env, cfg.apexes, file.routes, bare[i]);
      if r.key.subdomain != [] { HostnameHasNoStar(r.key.subdomain); }
    }
    forall al | al in cfg.aliases ensures al.key.subdomain == [] || al.key.subdomain[0] != STAR {
      AliasIsNamed(env, cfg.apexes, file.aliases, bare, al);
      HostnameHasNoStar(al.key.subdomain);
    }
  }

  /** For every configuration that loads. */
  lemma LoadedUncoveredExactly(env: Env, file: FileConfig, host: Text, a: Apex, sub: Text)
    requires Normalized(env, file).Some?
    requires var t := FromConfig(Normalized(env, file).value);
             MatchHost(t, WithoutPort(host)) == Some((a, sub)) && !Classify(t, host).Reject?
    ensures var cfg := Normalized(env, file).value;
            var h := Lower(WithoutPort(host));
            !Covered(Sans(cfg), h)
            <==> !a.fallthrough.NoneMode? && h != a.suffix && !OneLabel(sub) && !SpelledOut(cfg, h)
  {
    var cfg := Normalized(env, file).value;
    DropIns.KeysAreUnique(env, file);
    DistinctUnique(cfg.apexes);
    LoadedHasNoStars(env, file);
    UncoveredExactly(cfg, host, a, sub);
  }

  // A host that is routed and not named.

  const APEX: Text := [120]                    // x
  const DEEP: Text := [97, 46, 98, 46, 120]    // a.b.x

  /** One apex with the default fallthrough, no routes and no aliases. */
  const ONE_APEX: FileConfig := FileConfig([], [DomainDecl(APEX, None)], [], [], [])

  lemma ApexLoads()
    ensures Apexes([DomainDecl(APEX, None)]) == [Apex(APEX, IrohMode)] && DomainsOk([DomainDecl(APEX, None)])
  {
    var d, a := DomainDecl(APEX, None), Apex(APEX, IrohMode);
    assert Lower(APEX) == APEX;
    assert Split(APEX, DOT) == [APEX] by {
      var none: seq<Text> := [[]];
      assert APEX[1..] == [] && Split([], DOT) == none;
      assert [APEX[0]] + none[0] == APEX && none[1..] == [] && [APEX] + [] == [APEX];
    }
    assert ApexOf(d) == Some(a);
    var ds := [d];
    assert ds[..0] == [] && Pick(ds[..0], ApexPicker()) == [];
    assert Pick(ds, ApexPicker()) == [a];
    var picked := [a];
    assert picked[..0] == [] && Keep(picked[..0], Suffix) == [];
    assert Keep(picked, Suffix) == [a];
  }

  lemma DeepIsBelow()
    ensures Lower(WithoutPort(DEEP)) == DEEP && Below(DEEP, APEX) == Some([97, 46, 98])
  {
    var e: Text := [];
    assert WithoutPort(e) == e;
    assert WithoutPort([120]) == [120] by { assert [120][1..] == e; }
    assert WithoutPort([46, 120]) == [46, 120] by { assert [46, 120][1..] == [120]; }
    assert WithoutPort([98, 46, 120]) == [98, 46, 120] by { assert [98, 46, 120][1..] == [46, 120]; }
    assert WithoutPort([46, 98, 46, 120]) == [46, 98, 46, 120] by { assert [46, 98, 46, 120][1..] == [98, 46, 120]; }
    assert DEEP[1..] == [46, 98, 46, 120];
    assert Lower(DEEP) == DEEP;
    assert DEEP[3..] == [DOT] + APEX && DEEP[..3] == [97, 46, 98];
  }

  predicate OnlyApex(cfg: Loaded) {
    cfg.apexes == [Apex(APEX, IrohMode)] && cfg.routes == [] && cfg.aliases == []
  }

  lemma DeepMatches(cfg: Loaded)
    requires OnlyApex(cfg)
    ensures MatchHost(FromConfig(cfg), WithoutPort(DEEP)) == Some((Apex(APEX, IrohMode), [97, 46, 98]))
  {
    DeepIsBelow();
    assert Longest(cfg.apexes, DEEP, Apex(APEX, IrohMode), [97, 46, 98]);
    LongestWins(cfg, WithoutPort(DEEP), Apex(APEX, IrohMode), [97, 46, 98]);
  }

  lemma DeepIsIroh(cfg: Loaded)
    requires OnlyApex(cfg)
    ensures Classify(FromConfig(cfg), DEEP) == Iroh(Apex(APEX, IrohMode), [97, 46, 98])
  {
    DeepMatches(cfg);
    var t := FromConfig(cfg);
    assert Lookup(t, Apex(APEX, IrohMode), [97, 46, 98]) == None;
    assert LookupAlias(t, Apex(APEX, IrohMode), [97, 46, 98]) == None;
  }

  /** Two labels below an apex with a wildcard: sent on to a node, and no name of the certificate covers it. */
  lemma RoutedButUnnamed(env: Env)
    requires env.settle([]).Some?
    ensures Normalized(env, ONE_APEX).Some?
    ensures var cfg := Normalized(env, ONE_APEX).value;
            Classify(FromConfig(cfg), DEEP) == Iroh(Apex(APEX, IrohMode), [97, 46, 98]) && !Covered(Sans(cfg), DEEP)
  {
    ApexLoads();
    var cfg := Normalized(env, ONE_APEX).value;
    assert OnlyApex(cfg);
    DeepIsBelow();
    DeepMatches(cfg);
    DeepIsIroh(cfg);
    LoadedUncoveredExactly(env, ONE_APEX, DEEP, Apex(APEX, IrohMode), [97, 46, 98]);
    DeepHasDot();
  }

  lemma DeepHasDot()
    ensures !OneLabel([97, 46, 98])
  {
    var sub: Text := [97, 46, 98];
    assert sub[1] == DOT;
  }
}
