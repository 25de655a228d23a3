/** The synthetic `<node>[-<port>]` subdomain, written for an alias and read back on the Iroh path. */
module Subdomains {
  import opened Bytes
  import opened Options
  import Decimal
  import opened Hostnames
  import opened FirstWins
  import opened GatewayConfig

  const PLUS: Byte := 43

  datatype ParseError = EmptySubdomain | EmptyNode

  function Written(t: Target): (s: Text) {
    match t.port
    case None => t.node
    case Some(p) => t.node + [HYPHEN] + Decimal.Print(p)
  }

  /** The position of the last hyphen. */
  function LastHyphen(s: Text): (at: Option<nat>)
    ensures at.Some? ==> at.value < |s| && s[at.value] == HYPHEN && HYPHEN !in s[at.value + 1..]
    ensures at.None? ==> HYPHEN !in s
  {
    if s == [] then None
    else if s[|s| - 1] == HYPHEN then Some(|s| - 1)
    else
      var at := LastHyphen(s[..|s| - 1]);
      assert s == s[..|s| - 1] + [s[|s| - 1]];
      assert at.Some? ==> s[at.value + 1..] == s[..|s| - 1][at.value + 1..] + [s[|s| - 1]];
      at
  }

  /** A 16-bit decimal, with an optional plus sign and any number of leading zeros. */
  function ParsePort(s: Text): (p: Option<nat>) {
    var digits := if s != [] && s[0] == PLUS then s[1..] else s;
    if digits == [] || !Decimal.AllDigits(digits) || Decimal.Number(digits) > 65535 then None
    else Some(Decimal.Number(digits))
  }

  function ParseZ32(s: Text): (r: Result<Target, ParseError>) {
    if s == [] then Err(EmptySubdomain)
    else
      match LastHyphen(s)
      case None => Ok(Target(s, None))
      case Some(at) =>
        match ParsePort(s[at + 1..])
        case None => Ok(Target(s, None))
        case Some(port) => if at == 0 then Err(EmptyNode) else Ok(Target(s[..at], Some(port)))
  }

  lemma LastHyphenIs(a: Text, b: Text)
    requires HYPHEN !in b
    ensures LastHyphen(a + [HYPHEN] + b) == Some(|a|)
  {
    var s := a + [HYPHEN] + b;
    var at := LastHyphen(s);
    assert s[|a|] == HYPHEN;
  }

  /** The node itself ends like a port. */
  predicate EndsLikePort(node: Text) {
    var at := LastHyphen(node);
    at.Some? && ParsePort(node[at.value + 1..]).Some?
  }

  /**
   Reading gives back what was written exactly when there is a node and it cannot be mistaken
   for a node with a port.
   */
  lemma WrittenIsRead(t: Target)
    requires t.port.Some? ==> t.port.value <= 65535
    ensures ParseZ32(Written(t)) == Ok(t) <==> t.node != [] && (t.port.None? ==> !EndsLikePort(t.node))
  {
    if t.port.Some? {
      var digits := Decimal.Print(t.port.value);
      var s := t.node + [HYPHEN] + digits;
      Decimal.PrintRoundTrip(t.port.value);
      assert HYPHEN !in digits;
      LastHyphenIs(t.node, digits);
      assert s[|t.node| + 1..] == digits && s[..|t.node|] == t.node;
      assert ParsePort(digits) == t.port;
    }
  }

  /** Node ids in z32 have no hyphen, so an alias always reaches the node and port it names. */
  lemma AliasReachesNode(t: Target)
    requires t.node != [] && HYPHEN !in t.node && (t.port.Some? ==> t.port.value <= 65535)
    ensures ParseZ32(Written(t)) == Ok(t)
  {
    WrittenIsRead(t);
  }

  /** z32 text is not empty and has no hyphen, and declared ports have 16 bits. */
  ghost predicate Z32(env: Env, file: FileConfig) {
    && (forall n: Text :: env.isNode(n) ==> n != [] && HYPHEN !in n)
    && (forall i :: 0 <= i < |file.aliases| && file.aliases[i].port.Some? ==> file.aliases[i].port.value <= 65535)
  }

  lemma ValidTargetReaches(env: Env, file: FileConfig, apexes: seq<Apex>, a: Alias)
    requires Z32(env, file) && a in ValidAliases(env, apexes, file.aliases)
    ensures ParseZ32(Written(a.target)) == Ok(a.target)
  {
    PickMember(file.aliases, AliasPicker(env, apexes), a);
    AliasReachesNode(a.target);
  }

  /** Every alias of a configuration that loads, and every fallback kept on a route, reaches its node and port. */
  lemma LoadedTargetsReach(env: Env, file: FileConfig)
    requires Normalized(env, file).Some? && Z32(env, file)
    ensures var cfg := Normalized(env, file).value;
            && (forall a :: a in cfg.aliases ==> ParseZ32(Written(a.target)) == Ok(a.target))
            && (forall r :: r in cfg.routes && r.fallback.Some? ==>
              ParseZ32(Written(r.fallback.value)) == Ok(r.fallback.value))
  {
    var cfg := Normalized(env, file).value;
    var bare, valid := BareRoutes(env, cfg.apexes, file.routes), ValidAliases(env, cfg.apexes, file.aliases);
    forall a | a in cfg.aliases ensures ParseZ32(Written(a.target)) == Ok(a.target) {
      FreeIsValid(bare, valid, a);
      ValidTargetReaches(env, file, cfg.apexes, a);
    }
    forall r | r in cfg.routes && r.fallback.Some? ensures ParseZ32(Written(r.fallback.value)) == Ok(r.fallback.value) {
      var i :| 0 <= i < |bare| && cfg.routes[i] == r;
      BareHasNoFallback(env, cfg.apexes, file.routes, bare[i]);
      FindLastSpec(valid, AliasKey, bare[i].key);
      var a := FindLast(valid, AliasKey, bare[i].key).value;
      ValidTargetReaches(env, file, cfg.apexes, a);
    }
  }

  lemma FreeIsValid(routes: seq<Route>, valid: seq<Alias>, a: Alias)
    requires a in FreeAliases(routes, valid)
    ensures a in valid
  {
    var i :| 0 <= i < |FreeAliases(routes, valid)| && FreeAliases(routes, valid)[i] == a;
    KeepMembers(Pick(valid, FreePicker(routes)), AliasKey, i);
    PickMember(valid, FreePicker(routes), a);
  }

  lemma BareHasNoFallback(env: Env, apexes: seq<Apex>, ds: seq<RouteDecl>, r: Route)
    requires r in BareRoutes(env, apexes, ds)
    ensures r.fallback == None
  {
    var bare := BareRoutes(env, apexes, ds);
    var i :| 0 <= i < |bare| && bare[i] == r;
    KeepMembers(ValidRoutes(env, apexes, ds), RouteKey, i);
    PickMember(ds, RoutePicker(env, apexes), r);
  }
}
