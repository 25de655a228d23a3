/** What drop-in files can and cannot change, and which declaration wins. */
module DropIns {
  import opened Bytes
  import opened Options
  import opened FirstWins
  import opened Hostnames
  import opened GatewayConfig
  import NameOrder

  /** A drop-in in file-name order; None is one that cannot be read or parsed. */
  type DropIn = Option<FileConfig>

  function ExtraRoutes(ds: seq<DropIn>): (r: seq<RouteDecl>) {
    if ds == [] then []
    else ExtraRoutes(ds[..|ds| - 1]) + (match ds[|ds| - 1] case None => [] case Some(f) => f.routes)
  }

  function ExtraAliases(ds: seq<DropIn>): (r: seq<AliasDecl>) {
    if ds == [] then []
    else ExtraAliases(ds[..|ds| - 1]) + (match ds[|ds| - 1] case None => [] case Some(f) => f.aliases)
  }

  function Merged(base: FileConfig, ds: seq<DropIn>): (r: FileConfig) {
    base.(routes := base.routes + ExtraRoutes(ds), aliases := base.aliases + ExtraAliases(ds))
  }

  // The directory: what it lists, in whatever order, and what reading and parsing each file gives.

  const TOML: seq<Byte> := Ascii(".toml")

  /** A name with the extension; a name that is nothing else has none. */
  predicate IsToml(name: NameOrder.FileName) {
    |name| > |TOML| && name[|name| - |TOML|..] == TOML
  }

  function TomlOnly(names: seq<NameOrder.FileName>): (r: seq<NameOrder.FileName>) {
    if names == [] then []
    else TomlOnly(names[..|names| - 1]) + (if IsToml(names[|names| - 1]) then [names[|names| - 1]] else [])
  }

  function ReadAll(files: seq<NameOrder.FileName>, read: NameOrder.FileName -> DropIn): (ds: seq<DropIn>) {
    seq(|files|, i requires 0 <= i < |files| => read(files[i]))
  }

  function DropInsOf(listing: Option<seq<NameOrder.FileName>>, read: NameOrder.FileName -> DropIn): (ds: seq<DropIn>) {
    match listing
    case None => []
    case Some(names) => ReadAll(NameOrder.Sort(TomlOnly(names)), read)
  }

  method TomlFiles(names: seq<NameOrder.FileName>) returns (files: seq<NameOrder.FileName>)
    ensures files == NameOrder.Sort(TomlOnly(names))
  {
    files := [];
    for i := 0 to |names|
      invariant files == TomlOnly(names[..i])
    {
      assert names[..i + 1][..i] == names[..i];
      if IsToml(names[i]) {
        files := files + [names[i]];
      }
    }
    assert names[..|names|] == names;
    files := NameOrder.Sort(files);
  }

  lemma MergedOneMore(base: FileConfig, ds: seq<DropIn>, d: DropIn)
    ensures var before := Merged(base, ds);
            Merged(base, ds + [d])
            == match d
               case None => before
               case Some(f) => before.(routes := before.routes + f.routes, aliases := before.aliases + f.aliases)
  {
    assert (ds + [d])[..|ds|] == ds;
    if d.None? { assert ExtraRoutes(ds) + [] == ExtraRoutes(ds) && ExtraAliases(ds) + [] == ExtraAliases(ds); }
  }

  /** A file that cannot be read or parsed is skipped. */
  method MergeFiles(base: FileConfig, files: seq<NameOrder.FileName>, read: NameOrder.FileName -> DropIn)
    returns (r: FileConfig)
    ensures r == Merged(base, ReadAll(files, read))
  {
    r := base;
    ghost var ds := ReadAll(files, read);
    for i := 0 to |files|
      invariant r == Merged(base, ds[..i])
    {
      MergedOneMore(base, ds[..i], ds[i]);
      assert ds[..i + 1] == ds[..i] + [ds[i]];
      var dropIn := read(files[i]);
      if dropIn.None? {
        continue;
      }
      r := r.(routes := r.routes + dropIn.value.routes);
      r := r.(aliases := r.aliases + dropIn.value.aliases);
    }
    assert ds[..|files|] == ds;
  }

  /** A directory that cannot be listed is skipped. */
  method MergeDropIns(base: FileConfig, listing: Option<seq<NameOrder.FileName>>, read: NameOrder.FileName -> DropIn)
    returns (r: FileConfig)
    ensures r == Merged(base, DropInsOf(listing, read))
  {
    if listing.None? {
      return base;
    }
    var files := TomlFiles(listing.value);
    r := MergeFiles(base, files, read);
  }

  lemma {:induction false} TomlOnlyMembers(names: seq<NameOrder.FileName>, n: NameOrder.FileName)
    ensures multiset(TomlOnly(names))[n] == if IsToml(n) then multiset(names)[n] else 0
    decreases |names|
  {
    if names != [] {
      var k := |names| - 1;
      TomlOnlyMembers(names[..k], n);
      assert names == names[..k] + [names[k]];
    }
  }

  /** The order in which the directory lists its files does not matter. */
  lemma ListingOrderIrrelevant(a: seq<NameOrder.FileName>, b: seq<NameOrder.FileName>,
                               read: NameOrder.FileName -> DropIn)
    requires multiset(a) == multiset(b)
    ensures DropInsOf(Some(a), read) == DropInsOf(Some(b), read)
  {
    forall n ensures multiset(TomlOnly(a))[n] == multiset(TomlOnly(b))[n] {
      TomlOnlyMembers(a, n);
      TomlOnlyMembers(b, n);
    }
    assert multiset(TomlOnly(a)) == multiset(TomlOnly(b));
    NameOrder.SortAscends(TomlOnly(a));
    NameOrder.SortAscends(TomlOnly(b));
    NameOrder.AscendingUnique(NameOrder.Sort(TomlOnly(a)), NameOrder.Sort(TomlOnly(b)));
  }

  // Where each appended declaration comes from.

  /** A place in a file: its name, and the number of the declaration. */
  type Place = (NameOrder.FileName, nat)

  predicate Before(a: Place, b: Place) {
    (a.0 != b.0 && NameOrder.UpTo(a.0, b.0)) || (a.0 == b.0 && a.1 < b.1)
  }

  /** The declarations of these files, one after another. */
  function Appended<T>(files: seq<NameOrder.FileName>, of: NameOrder.FileName -> seq<T>): (r: seq<T>) {
    if files == [] then [] else Appended(files[..|files| - 1], of) + of(files[|files| - 1])
  }

  function Places<T>(files: seq<NameOrder.FileName>, of: NameOrder.FileName -> seq<T>): (r: seq<Place>) {
    if files == [] then []
    else
      var last := files[|files| - 1];
      Places(files[..|files| - 1], of) + seq(|of(last)|, i => (last, i))
  }

  /** Each declaration is the one at its place, every declaration of the files has its place, and places ascend. */
  ghost predicate FromPlaces<T>(files: seq<NameOrder.FileName>, of: NameOrder.FileName -> seq<T>, out: seq<T>,
                                places: seq<Place>) {
    && |out| == |places|
    && (forall q :: 0 <= q < |places| ==>
          places[q].0 in files && places[q].1 < |of(places[q].0)| && out[q] == of(places[q].0)[places[q].1])
    && (forall n, i: nat :: n in files && i < |of(n)| ==> (n, i) in places)
    && (forall q, r :: 0 <= q < r < |places| ==> Before(places[q], places[r]))
  }

  predicate DistinctNames(files: seq<NameOrder.FileName>) {
    forall i, j :: 0 <= i < j < |files| ==> files[i] != files[j]
  }

  lemma {:induction false} PlacesMembers<T>(files: seq<NameOrder.FileName>, of: NameOrder.FileName -> seq<T>)
    ensures |Appended(files, of)| == |Places(files, of)|
    ensures forall q :: 0 <= q < |Places(files, of)| ==>
                          var (n, i) := Places(files, of)[q];
                          n in files && i < |of(n)| && Appended(files, of)[q] == of(n)[i]
    decreases |files|
  {
    if files != [] {
      var front, last := files[..|files| - 1], files[|files| - 1];
      PlacesMembers(front, of);
      assert files == front + [last];
    }
  }

  lemma {:induction false} PlacesComplete<T>(files: seq<NameOrder.FileName>, of: NameOrder.FileName -> seq<T>,
                                             n: NameOrder.FileName, i: nat)
    requires n in files && i < |of(n)|
    ensures (n, i) in Places(files, of)
    decreases |files|
  {
    var front, last := files[..|files| - 1], files[|files| - 1];
    assert files == front + [last];
    if n in front {
      PlacesComplete(front, of, n, i);
    } else {
      var mine := seq(|of(last)|, k => (last, k));
      assert mine[i] == (n, i);
    }
  }

  lemma {:induction false} PlacesAscend<T>(files: seq<NameOrder.FileName>, of: NameOrder.FileName -> seq<T>)
    requires NameOrder.Ascending(files) && DistinctNames(files)
    ensures forall q, r :: 0 <= q < r < |Places(files, of)| ==> Before(Places(files, of)[q], Places(files, of)[r])
    decreases |files|
  {
    if files != [] {
      var k := |files| - 1;
      var front, last := files[..k], files[k];
      PlacesAscend(front, of);
      PlacesMembers(front, of);
      forall q | 0 <= q < |Places(front, of)| ensures Before(Places(front, of)[q], (last, 0)) {
        var n := Places(front, of)[q].0;
        var i :| 0 <= i < k && front[i] == n;
        assert files[i] == n && NameOrder.UpTo(files[i], files[k]) && files[i] != files[k];
      }
    }
  }

  lemma AppendedFromPlaces<T>(files: seq<NameOrder.FileName>, of: NameOrder.FileName -> seq<T>)
    requires NameOrder.Ascending(files) && DistinctNames(files)
    ensures FromPlaces(files, of, Appended(files, of), Places(files, of))
  {
    PlacesMembers(files, of);
    PlacesAscend(files, of);
    forall n, i: nat | n in files && i < |of(n)| ensures (n, i) in Places(files, of) {
      PlacesComplete(files, of, n, i);
    }
  }

  function RoutesIn(read: NameOrder.FileName -> DropIn): (of: NameOrder.FileName -> seq<RouteDecl>) {
    n => match read(n) case None => [] case Some(f) => f.routes
  }

  function AliasesIn(read: NameOrder.FileName -> DropIn): (of: NameOrder.FileName -> seq<AliasDecl>) {
    n => match read(n) case None => [] case Some(f) => f.aliases
  }

  lemma {:induction false} ExtrasAppended(files: seq<NameOrder.FileName>, read: NameOrder.FileName -> DropIn)
    ensures ExtraRoutes(ReadAll(files, read)) == Appended(files, RoutesIn(read))
    ensures ExtraAliases(ReadAll(files, read)) == Appended(files, AliasesIn(read))
    decreases |files|
  {
    if files != [] {
      var k := |files| - 1;
      ExtrasAppended(files[..k], read);
      assert ReadAll(files, read)[..k] == ReadAll(files[..k], read);
    }
  }

  /** The names of the directory that end in the extension and are not only that. */
  predicate Taken(name: NameOrder.FileName) {
    exists k :: 0 < k < |name| && name[k..] == Ascii(".toml")
  }

  lemma TakenIff(name: NameOrder.FileName)
    ensures Taken(name) <==> IsToml(name)
  {
    if k :| 0 < k < |name| && name[k..] == Ascii(".toml") { assert k == |name| - |TOML|; }
  }

  lemma CountedOnce(files: seq<NameOrder.FileName>)
    requires forall n :: multiset(files)[n] <= 1
    ensures DistinctNames(files)
  {
    forall i, j | 0 <= i < j < |files| ensures files[i] != files[j] {
      var n := files[j];
      var front, back := files[..j], files[j + 1..];
      assert files == front + [n] + back;
      assert multiset(files)[n] == multiset(front)[n] + 1 + multiset(back)[n];
      assert files[i] in front;
    }
  }

  lemma SortedNames(names: seq<NameOrder.FileName>)
    requires DistinctNames(names)
    ensures var files := NameOrder.Sort(TomlOnly(names));
            && NameOrder.Ascending(files) && DistinctNames(files)
            && forall n :: n in files <==> n in names && Taken(n)
  {
    var files := NameOrder.Sort(TomlOnly(names));
    NameOrder.SortAscends(TomlOnly(names));
    forall n ensures multiset(files)[n] == if Taken(n) then multiset(names)[n] else 0 {
      TomlOnlyMembers(names, n);
      TakenIff(n);
    }
    forall n ensures n in files <==> n in names && Taken(n) {
      assert n in files <==> multiset(files)[n] > 0;
      assert n in names <==> multiset(names)[n] > 0;
    }
    forall n ensures multiset(names)[n] <= 1 { NamedOnce(names, n); }
    CountedOnce(files);
  }

  lemma {:induction false} NamedOnce(names: seq<NameOrder.FileName>, n: NameOrder.FileName)
    requires DistinctNames(names)
    ensures multiset(names)[n] <= 1
    decreases |names|
  {
    if names != [] {
      var k := |names| - 1;
      NamedOnce(names[..k], n);
      assert names == names[..k] + [names[k]];
      if names[k] == n { assert n !in names[..k]; }
    }
  }

  /**
   What merging appends: the routes and the aliases of every file of the directory that has the extension
   and can be read, in the order of file names and, in each file, in the order of the file.
   */
  lemma AppendedInOrder(base: FileConfig, names: seq<NameOrder.FileName>, read: NameOrder.FileName -> DropIn)
    requires DistinctNames(names)
    ensures var merged := Merged(base, DropInsOf(Some(names), read));
            exists files, routes, aliases, r, a ::
              && (forall n :: n in files <==> n in names && Taken(n))
              && merged == base.(routes := base.routes + routes, aliases := base.aliases + aliases)
              && FromPlaces(files, RoutesIn(read), routes, r) && FromPlaces(files, AliasesIn(read), aliases, a)
  {
    var files := NameOrder.Sort(TomlOnly(names));
    SortedNames(names);
    ExtrasAppended(files, read);
    AppendedFromPlaces(files, RoutesIn(read));
    AppendedFromPlaces(files, AliasesIn(read));
  }

  method Load(env: Env, base: FileConfig, listing: Option<seq<NameOrder.FileName>>,
              read: NameOrder.FileName -> DropIn) returns (r: Option<Loaded>)
    ensures r == Normalized(env, Merged(base, DropInsOf(listing, read)))
  {
    var file := MergeDropIns(base, listing, read);
    r := ValidateAndNormalize(env, file);
  }

  /** Drop-ins decide neither whether loading succeeds nor any apex, certificate or setting. */
  lemma DropInsStayInside(env: Env, base: FileConfig, ds: seq<DropIn>)
    ensures Normalized(env, Merged(base, ds)).Some? <==> Normalized(env, base).Some?
    ensures Normalized(env, base).Some? ==>
              var (with, alone) := (Normalized(env, Merged(base, ds)).value, Normalized(env, base).value);
              with.settings == alone.settings && with.apexes == alone.apexes && with.certs == alone.certs
  {
  }

  /** Every route the base file alone would have keeps its place, key and backend. */
  lemma BaseRoutesStand(env: Env, base: FileConfig, ds: seq<DropIn>, i: nat)
    requires Normalized(env, base).Some? && i < |Normalized(env, base).value.routes|
    ensures Normalized(env, Merged(base, ds)).Some?
    ensures var (with, alone) := (Normalized(env, Merged(base, ds)).value.routes, Normalized(env, base).value.routes);
            i < |with| && with[i].key == alone[i].key && with[i].backend == alone[i].backend
  {
    var apexes := Apexes(base.domains);
    var f := RoutePicker(env, apexes);
    PickAppend(base.routes, ExtraRoutes(ds), f);
    KeepPrefix(Pick(base.routes, f), Pick(ExtraRoutes(ds), f), RouteKey);
    assert BareRoutes(env, apexes, base.routes) <= BareRoutes(env, apexes, base.routes + ExtraRoutes(ds));
  }

  /** The route for a key is the first valid one declared for it, with the last valid alias as fallback. */
  lemma FirstRouteWins(env: Env, file: FileConfig, k: Key)
    requires Normalized(env, file).Some?
    ensures var cfg := Normalized(env, file).value;
            Find(cfg.routes, RouteKey, k)
            == match Find(ValidRoutes(env, cfg.apexes, file.routes), RouteKey, k)
               case None => None
               case Some(r) => Some(WithFallback(r, ValidAliases(env, cfg.apexes, file.aliases)))
  {
    var apexes := Apexes(file.domains);
    FindThroughFallbacks(BareRoutes(env, apexes, file.routes), ValidAliases(env, apexes, file.aliases), k);
    KeepFinds(ValidRoutes(env, apexes, file.routes), RouteKey, k);
  }

  lemma {:induction false} FindFree(routes: seq<Route>, valid: seq<Alias>, k: Key)
    ensures Find(Pick(valid, FreePicker(routes)), AliasKey, k)
            == if Find(routes, RouteKey, k).Some? then None else Find(valid, AliasKey, k)
    decreases |valid|
  {
    if valid != [] {
      var n := |valid| - 1;
      FindFree(routes, valid[..n], k);
      var a, f := valid[n], FreePicker(routes);
      if Find(routes, RouteKey, a.key).None? {
        assert f(a) == Some(a);
        FindAppend(Pick(valid[..n], f), [a], AliasKey, k);
        assert Find([a], AliasKey, k) == if a.key == k then Some(a) else None by { assert [a][..0] == []; }
      } else {
        assert f(a) == None;
        assert Pick(valid, f) == Pick(valid[..n], f);
      }
    }
  }

  /** The alias for a key is the first valid one, unless a route has the key. */
  lemma FirstAliasWins(env: Env, file: FileConfig, k: Key)
    requires Normalized(env, file).Some?
    ensures var cfg := Normalized(env, file).value;
            Find(cfg.aliases, AliasKey, k)
            == if Find(cfg.routes, RouteKey, k).Some? then None
               else Find(ValidAliases(env, cfg.apexes, file.aliases), AliasKey, k)
  {
    var apexes := Apexes(file.domains);
    var bare, valid := BareRoutes(env, apexes, file.routes), ValidAliases(env, apexes, file.aliases);
    FindThroughFallbacks(bare, valid, k);
    FindFree(bare, valid, k);
    KeepFinds(Pick(valid, FreePicker(bare)), AliasKey, k);
  }

  lemma FallbacksKeepDistinct(bare: seq<Route>, valid: seq<Alias>)
    requires Distinct(bare, RouteKey)
    ensures Distinct(WithFallbacks(bare, valid), RouteKey)
  {
    forall i, j | 0 <= i < j < |bare| ensures WithFallbacks(bare, valid)[i].key != WithFallbacks(bare, valid)[j].key {
      assert RouteKey(bare[i]) != RouteKey(bare[j]);
    }
  }

  lemma RouteOrAlias(env: Env, file: FileConfig, i: nat, j: nat)
    requires Normalized(env, file).Some?
    requires i < |Normalized(env, file).value.routes| && j < |Normalized(env, file).value.aliases|
    ensures Normalized(env, file).value.routes[i].key != Normalized(env, file).value.aliases[j].key
  {
    var cfg := Normalized(env, file).value;
    var k := cfg.aliases[j].key;
    FirstAliasWins(env, file, k);
    FindSpec(cfg.aliases, AliasKey, k);
    FindSpec(cfg.routes, RouteKey, k);
    assert AliasKey(cfg.aliases[j]) == k;
  }

  /** No key is declared twice, among routes, among aliases or across them, and no apex is. */
  lemma KeysAreUnique(env: Env, file: FileConfig)
    requires Normalized(env, file).Some?
    ensures var cfg := Normalized(env, file).value;
            && Distinct(cfg.apexes, Suffix) && Distinct(cfg.routes, RouteKey) && Distinct(cfg.aliases, AliasKey)
            && forall i, j :: 0 <= i < |cfg.routes| && 0 <= j < |cfg.aliases| ==>
              cfg.routes[i].key != cfg.aliases[j].key
  {
    var cfg := Normalized(env, file).value;
    var bare, valid := BareRoutes(env, cfg.apexes, file.routes), ValidAliases(env, cfg.apexes, file.aliases);
    KeepDistinct(Pick(file.domains, ApexPicker()), Suffix);
    KeepDistinct(ValidRoutes(env, cfg.apexes, file.routes), RouteKey);
    KeepDistinct(Pick(valid, FreePicker(bare)), AliasKey);
    FallbacksKeepDistinct(bare, valid);
    forall i, j | 0 <= i < |cfg.routes| && 0 <= j < |cfg.aliases| ensures cfg.routes[i].key != cfg.aliases[j].key {
      RouteOrAlias(env, file, i, j);
    }
  }

  /**
   An alias of the base file keeps its target unless a route takes the key, and then that
   route falls back to an alias.
   */
  lemma BaseAliasesStand(env: Env, base: FileConfig, ds: seq<DropIn>, k: Key)
    requires Normalized(env, base).Some? && Find(Normalized(env, base).value.aliases, AliasKey, k).Some?
    ensures Normalized(env, Merged(base, ds)).Some?
    ensures var (with, alone) := (Normalized(env, Merged(base, ds)).value, Normalized(env, base).value);
            match Find(with.routes, RouteKey, k)
            case None => Find(with.aliases, AliasKey, k) == Find(alone.aliases, AliasKey, k)
            case Some(r) => r.fallback.Some?
  {
    var file := Merged(base, ds);
    var apexes := Apexes(base.domains);
    var f := AliasPicker(env, apexes);
    FirstAliasWins(env, base, k);
    FirstAliasWins(env, file, k);
    FirstRouteWins(env, file, k);
    PickAppend(base.aliases, ExtraAliases(ds), f);
    FindAppend(Pick(base.aliases, f), Pick(ExtraAliases(ds), f), AliasKey, k);
    var valid := ValidAliases(env, apexes, file.aliases);
    FindSpec(valid, AliasKey, k);
    FindLastSpec(valid, AliasKey, k);
    FindSpec(ValidRoutes(env, apexes, file.routes), RouteKey, k);
  }
}
