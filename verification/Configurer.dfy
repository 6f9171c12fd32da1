/** Building the stores of one monitor from its configuration
    (internal/config.go, internal/builder.go). */
module Configurer {
  import opened Basics
  import opened Resources
  import opened Tracker
  import opened Family
  import opened StoreMachine
  import opened Store

  datatype FamilySpec = FamilySpec(config: Config, help: string, cardinalityLimit: int)

  datatype StoreSpec = StoreSpec(
    group: string, version: string, kind: string,
    families: seq<FamilySpec>, resolver: ResolverKind, labels: seq<Label>,
    cardinalityLimit: int)

  function StoreKey(s: StoreSpec): string {
    s.group + "/" + s.version + "/" + s.kind
  }

  // ---- when keys identify stores ----------------------------------------------------

  lemma LaterSlash(a: string, b: string, c: string, d: string)
    requires a + "/" + b == c + "/" + d && |a| < |c|
    ensures '/' in b
  {
    assert b[|c| - |a| - 1] == (a + "/" + b)[|c|] == (c + "/" + d)[|c|];
  }

  lemma LastSlash(a: string, b: string, c: string, d: string)
    requires a + "/" + b == c + "/" + d && '/' !in b && '/' !in d
    ensures a == c && b == d
  {
    var s, t := a + "/" + b, c + "/" + d;
    if |a| < |c| {
      LaterSlash(a, b, c, d);
    } else if |c| < |a| {
      LaterSlash(c, d, a, b);
    } else {
      assert a == s[..|a|] && c == t[..|a|] && b == s[|a| + 1..] && d == t[|a| + 1..];
    }
  }

  /** Keys tell two stores apart if their versions and kinds hold no slash; groups
      may hold anything. */
  lemma KeyTellsApart(s: StoreSpec, t: StoreSpec)
    requires '/' !in s.version && '/' !in s.kind && '/' !in t.version && '/' !in t.kind
    ensures StoreKey(s) == StoreKey(t) <==> s.group == t.group && s.version == t.version && s.kind == t.kind
  {
    if StoreKey(s) == StoreKey(t) {
      LastSlash(s.group + "/" + s.version, s.kind, t.group + "/" + t.version, t.kind);
      LastSlash(s.group, s.version, t.group, t.version);
    }
  }

  function Slashes(s: string): nat {
    if s == [] then 0 else (if s[0] == '/' then 1 else 0) + Slashes(s[1..])
  }

  lemma {:induction false} SlashesAppend(a: string, b: string)
    ensures Slashes(a + b) == Slashes(a) + Slashes(b)
  {
    if a == [] {
      assert a + b == b;
    } else {
      SlashesAppend(a[1..], b);
      assert (a + b)[1..] == a[1..] + b;
    }
  }

  lemma {:induction false} NoSlashes(s: string)
    ensures Slashes(s) == 0 <==> '/' !in s
  {
    if s != [] {
      NoSlashes(s[1..]);
      assert s == [s[0]] + s[1..];
    }
  }

  lemma KeySlashes(s: StoreSpec)
    ensures Slashes(StoreKey(s)) == Slashes(s.group) + Slashes(s.version) + Slashes(s.kind) + 2
  {
    SlashesAppend(s.group + "/" + s.version + "/", s.kind);
    SlashesAppend(s.group + "/" + s.version, "/");
    SlashesAppend(s.group + "/", s.version);
    SlashesAppend(s.group, "/");
    assert Slashes("/") == 1;
  }

  predicate SameKind(s: StoreSpec, t: StoreSpec) {
    s.group == t.group && s.version == t.version && s.kind == t.kind
  }

  lemma SplitAtSlash(s: string) returns (a: string, b: string)
    requires '/' in s
    ensures s == a + "/" + b && |a| < |s| && |b| < |s|
  {
    var i :| 0 <= i < |s| && s[i] == '/';
    a, b := s[..i], s[i + 1..];
  }

  /** Another store whose key is that of a store with a slash in some part. */
  lemma Colliding(s: StoreSpec) returns (t: StoreSpec)
    requires '/' in s.group || '/' in s.version || '/' in s.kind
    ensures StoreKey(t) == StoreKey(s) && !SameKind(t, s)
  {
    if '/' in s.group {
      var a, b := SplitAtSlash(s.group);
      t := s.(group := a, version := b, kind := s.version + "/" + s.kind);
    } else if '/' in s.version {
      var a, b := SplitAtSlash(s.version);
      t := s.(group := s.group + "/" + a, version := b);
    } else {
      var a, b := SplitAtSlash(s.kind);
      t := s.(group := s.group + "/" + s.version, version := a, kind := b);
    }
    assert StoreKey(t) == StoreKey(s);
  }

  /** The key of a store is that of no other exactly if no part of it holds a slash. */
  lemma KeyIdentifies(s: StoreSpec)
    ensures (forall t | StoreKey(t) == StoreKey(s) :: SameKind(t, s))
              <==> '/' !in s.group && '/' !in s.version && '/' !in s.kind
  {
    hide StoreKey, Slashes;
    NoSlashes(s.group);
    NoSlashes(s.version);
    NoSlashes(s.kind);
    KeySlashes(s);
    if '/' in s.group || '/' in s.version || '/' in s.kind {
      var t := Colliding(s);
    } else {
      forall t | StoreKey(t) == StoreKey(s) ensures SameKind(t, s) {
        KeySlashes(t);
        NoSlashes(t.version);
        NoSlashes(t.kind);
        KeyTellsApart(s, t);
      }
    }
  }

  // ---- the duplicate pass --------------------------------------------------------------

  /** No earlier entry has the same key. */
  predicate IsFirst(all: seq<StoreSpec>, i: nat)
    requires i < |all|
  {
    forall j | 0 <= j < i :: StoreKey(all[j]) != StoreKey(all[i])
  }

  /** The first entry of every key, in order. */
  function Firsts(all: seq<StoreSpec>): seq<StoreSpec> {
    if all == [] then []
    else
      var n := |all| - 1;
      Firsts(all[..n]) + (if IsFirst(all, n) then [all[n]] else [])
  }

  function Occurrences(all: seq<StoreSpec>, key: string): nat {
    if all == [] then 0
    else Occurrences(all[..|all| - 1], key) + (if StoreKey(all[|all| - 1]) == key then 1 else 0)
  }

  /** The keys of the kept stores that declare a family, once per declaration. */
  function DeclaredBy(kept: seq<StoreSpec>, family: string): seq<string> {
    if kept == [] then []
    else
      var s := kept[|kept| - 1];
      DeclaredBy(kept[..|kept| - 1], family) + Declarations(s, s.families, family)
  }

  function Declarations(s: StoreSpec, families: seq<FamilySpec>, family: string): seq<string> {
    if families == [] then []
    else
      Declarations(s, families[..|families| - 1], family)
      + (if families[|families| - 1].config.name == family then [StoreKey(s)] else [])
  }

  function KeysOf(all: seq<StoreSpec>): set<string> {
    set i | 0 <= i < |all| :: StoreKey(all[i])
  }

  ghost predicate Counted(all: seq<StoreSpec>, seen: map<string, int>) {
    seen.Keys == KeysOf(all) && forall key | key in seen :: seen[key] == Occurrences(all, key)
  }

  ghost predicate Declared(kept: seq<StoreSpec>, seen: map<string, seq<string>>) {
    forall f :: Listed(seen, f) == DeclaredBy(kept, f)
  }

  lemma {:induction false} NoOccurrence(all: seq<StoreSpec>, key: string)
    ensures Occurrences(all, key) == 0 <==> key !in KeysOf(all)
  {
    if all != [] {
      NoOccurrence(all[..|all| - 1], key);
      MoreKeys(all[..|all| - 1], all[|all| - 1]);
      assert all == all[..|all| - 1] + [all[|all| - 1]];
    }
  }

  lemma MoreKeys(all: seq<StoreSpec>, s: StoreSpec)
    ensures KeysOf(all + [s]) == KeysOf(all) + {StoreKey(s)}
  {
    forall k | k in KeysOf(all) + {StoreKey(s)} ensures k in KeysOf(all + [s]) {
      if i :| 0 <= i < |all| && StoreKey(all[i]) == k {
        assert (all + [s])[i] == all[i];
      } else {
        assert (all + [s])[|all|] == s;
      }
    }
  }

  lemma OneMoreEntry(all: seq<StoreSpec>, s: StoreSpec, seen: map<string, int>)
    requires Counted(all, seen)
    ensures Firsts(all + [s]) == Firsts(all) + (if StoreKey(s) in seen then [] else [s])
    ensures Counted(all + [s], seen[StoreKey(s) := if StoreKey(s) in seen then seen[StoreKey(s)] + 1 else 1])
    ensures Sum(seen[StoreKey(s) := if StoreKey(s) in seen then seen[StoreKey(s)] + 1 else 1]) == Sum(seen) + 1
  {
    hide Sum, StoreKey;
    var more := all + [s];
    assert more[..|all|] == all && more[|all|] == s;
    SumInsert(seen, StoreKey(s), if StoreKey(s) in seen then seen[StoreKey(s)] + 1 else 1);
    MoreKeys(all, s);
    NoOccurrence(all, StoreKey(s));
    assert IsFirst(more, |all|) <==> StoreKey(s) !in seen by {
      if i :| 0 <= i < |all| && StoreKey(all[i]) == StoreKey(s) {
        assert more[i] == all[i];
      }
    }
  }

  lemma {:induction false} FirstsHaveKeys(all: seq<StoreSpec>)
    ensures forall k :: k in KeysOf(Firsts(all)) <==> k in KeysOf(all)
    ensures forall i, j | 0 <= i < j < |Firsts(all)| :: StoreKey(Firsts(all)[i]) != StoreKey(Firsts(all)[j])
    ensures forall s | s in Firsts(all) :: s in all
  {
    hide StoreKey;
    if all != [] {
      var n := |all| - 1;
      FirstsHaveKeys(all[..n]);
      assert all == all[..n] + [all[n]];
      MoreKeys(all[..n], all[n]);
      if IsFirst(all, n) {
        MoreKeys(Firsts(all[..n]), all[n]);
        assert StoreKey(all[n]) !in KeysOf(all[..n]);
        forall i | 0 <= i < |Firsts(all[..n])| ensures StoreKey(Firsts(all[..n])[i]) != StoreKey(all[n]) {
          assert StoreKey(Firsts(all[..n])[i]) in KeysOf(Firsts(all[..n]));
        }
      } else {
        assert StoreKey(all[n]) in KeysOf(all[..n]) by {
          var j :| 0 <= j < n && StoreKey(all[j]) == StoreKey(all[n]);
          assert all[..n][j] == all[j];
        }
        assert Firsts(all) == Firsts(all[..n]);
      }
    }
  }

  // ---- families reported as shared ---------------------------------------------------------

  predicate Declares(s: StoreSpec, f: string) {
    exists i :: 0 <= i < |s.families| && s.families[i].config.name == f
  }

  predicate DeclaresTwice(s: StoreSpec, f: string) {
    exists i, j :: 0 <= i < j < |s.families| && s.families[i].config.name == f == s.families[j].config.name
  }

  /** Two of the stores declare the family. */
  predicate Shared(kept: seq<StoreSpec>, f: string) {
    exists i, j :: 0 <= i < j < |kept| && Declares(kept[i], f) && Declares(kept[j], f)
  }

  /** Store i alone declares the family, and more than once. */
  predicate RepeatedBy(kept: seq<StoreSpec>, f: string, i: nat) {
    && i < |kept| && DeclaresTwice(kept[i], f)
    && forall j | 0 <= j < |kept| && j != i :: !Declares(kept[j], f)
  }

  /** Warned about as used in multiple stores. */
  predicate Reported(kept: seq<StoreSpec>, f: string) {
    |DeclaredBy(kept, f)| > 1
  }

  lemma {:induction false} DeclarationCount(s: StoreSpec, families: seq<FamilySpec>, f: string)
    ensures |Declarations(s, families, f)| > 0 <==> exists i :: 0 <= i < |families| && families[i].config.name == f
    ensures |Declarations(s, families, f)| > 1
       <==> exists i, j :: 0 <= i < j < |families| && families[i].config.name == f == families[j].config.name
  {
    if families != [] {
      DeclarationCount(s, families[..|families| - 1], f);
      assert families == families[..|families| - 1] + [families[|families| - 1]];
    }
  }

  lemma {:induction false} DeclaredCount(kept: seq<StoreSpec>, f: string)
    ensures |DeclaredBy(kept, f)| > 0 <==> exists i :: 0 <= i < |kept| && Declares(kept[i], f)
    ensures Reported(kept, f) <==> Shared(kept, f) || exists i :: 0 <= i < |kept| && DeclaresTwice(kept[i], f)
  {
    hide Declares, DeclaresTwice;
    if kept != [] {
      var n := |kept| - 1;
      DeclaredCount(kept[..n], f);
      DeclaresBy(kept[n], f);
      assert kept == kept[..n] + [kept[n]];
      hide Shared, Declarations;
      OneMoreStore(kept[..n], kept[n], f);
    }
  }

  lemma OneMoreStore(kept: seq<StoreSpec>, s: StoreSpec, f: string)
    ensures Shared(kept + [s], f)
       <==> Shared(kept, f) || (Declares(s, f) && exists i :: 0 <= i < |kept| && Declares(kept[i], f))
    ensures (exists i :: 0 <= i < |kept + [s]| && Declares((kept + [s])[i], f))
       <==> Declares(s, f) || exists i :: 0 <= i < |kept| && Declares(kept[i], f)
    ensures (exists i :: 0 <= i < |kept + [s]| && DeclaresTwice((kept + [s])[i], f))
       <==> DeclaresTwice(s, f) || exists i :: 0 <= i < |kept| && DeclaresTwice(kept[i], f)
  {
    hide Declares, DeclaresTwice;
    var all := kept + [s];
    assert forall i | 0 <= i < |kept| :: all[i] == kept[i];
    assert all[|kept|] == s;
  }

  lemma DeclaresBy(s: StoreSpec, f: string)
    ensures |Declarations(s, s.families, f)| > 0 <==> Declares(s, f)
    ensures |Declarations(s, s.families, f)| > 1 <==> DeclaresTwice(s, f)
  {
    DeclarationCount(s, s.families, f);
  }

  /** The warning about a family used in multiple stores is right exactly unless one
      store alone declares the family, more than once. */
  lemma ReportedIff(kept: seq<StoreSpec>, f: string)
    ensures (Reported(kept, f) <==> Shared(kept, f)) <==> !exists i: nat :: RepeatedBy(kept, f, i)
  {
    hide Declares, DeclaresTwice, Reported;
    DeclaredCount(kept, f);
    forall i | 0 <= i < |kept| && DeclaresTwice(kept[i], f) ensures Declares(kept[i], f) { TwiceDeclares(kept[i], f); }
    if i :| 0 <= i < |kept| && DeclaresTwice(kept[i], f) && !Shared(kept, f) {
      assert RepeatedBy(kept, f, i);
    }
  }

  lemma TwiceDeclares(s: StoreSpec, f: string)
    requires DeclaresTwice(s, f)
    ensures Declares(s, f)
  {
  }

  /** One store that declares a family twice: it is reported as used in multiple
      stores. */
  lemma ReportedAlone(config: Config, help: string) returns (s: StoreSpec)
    ensures Reported(Firsts([s]), config.name) && !Shared(Firsts([s]), config.name)
  {
    var family := FamilySpec(config, help, 0);
    s := StoreSpec("", "v1", "Pod", [family, family], Cel, [], 0);
    assert Firsts([s]) == [s] by { assert [s][..0] == [] && IsFirst([s], 0); }
    assert s.families[0].config.name == config.name == s.families[1].config.name;
    assert DeclaresTwice([s][0], config.name);
    DeclaredCount([s], config.name);
  }

  /** The duplicate pass. */
  method Deduplicate(all: seq<StoreSpec>)
    returns (deduplicated: seq<StoreSpec>, seenStores: map<string, int>, seenFamilies: map<string, seq<string>>)
    ensures deduplicated == Firsts(all) && Counted(all, seenStores) && Declared(Firsts(all), seenFamilies)
    ensures Sum(seenStores) == |all|
  {
    hide StoreKey, Sum;
    seenStores, seenFamilies, deduplicated := map[], map[], [];
    NothingSeen();
    for i := 0 to |all|
      invariant deduplicated == Firsts(all[..i]) && Counted(all[..i], seenStores) && Sum(seenStores) == i
      invariant Declared(deduplicated, seenFamilies)
    {
      var key := StoreKey(all[i]);
      OneMoreEntry(all[..i], all[i], seenStores);
      assert all[..i + 1] == all[..i] + [all[i]];
      if key in seenStores {
        seenStores := seenStores[key := seenStores[key] + 1];
        continue;
      }
      seenStores := seenStores[key := 1];
      seenFamilies := Declare(all[i], deduplicated, seenFamilies);
      deduplicated := deduplicated + [all[i]];
    }
    assert all[..|all|] == all;
  }

  lemma NothingSeen()
    ensures Counted([], map[]) && Sum<string>(map[]) == 0
  {
  }

  /** The first i families of the store are declared too. */
  ghost predicate DeclaredUpTo(kept: seq<StoreSpec>, store: StoreSpec, i: nat, seen: map<string, seq<string>>)
    requires i <= |store.families|
  {
    forall f :: Listed(seen, f) == DeclaredBy(kept, f) + Declarations(store, store.families[..i], f)
  }

  function Listed(seen: map<string, seq<string>>, f: string): seq<string> {
    if f in seen then seen[f] else []
  }

  method Declare(store: StoreSpec, ghost kept: seq<StoreSpec>, seen: map<string, seq<string>>)
      returns (seen': map<string, seq<string>>)
    requires Declared(kept, seen)
    ensures Declared(kept + [store], seen')
  {
    hide StoreKey, DeclaredUpTo, Declared;
    seen' := seen;
    FirstDeclaration(kept, store, seen);
    for i := 0 to |store.families|
      invariant DeclaredUpTo(kept, store, i, seen')
    {
      var name := store.families[i].config.name;
      DeclareStep(kept, store, i, seen');
      seen' := seen'[name := Listed(seen', name) + [StoreKey(store)]];
    }
    LastDeclaration(kept, store, seen');
  }

  lemma FirstDeclaration(kept: seq<StoreSpec>, store: StoreSpec, seen: map<string, seq<string>>)
    requires Declared(kept, seen)
    ensures DeclaredUpTo(kept, store, 0, seen)
  {
    hide DeclaredBy;
    NoDeclarations(store);
  }

  lemma DeclareStep(kept: seq<StoreSpec>, store: StoreSpec, i: nat, seen: map<string, seq<string>>)
    requires i < |store.families| && DeclaredUpTo(kept, store, i, seen)
    ensures var name := store.families[i].config.name;
            DeclaredUpTo(kept, store, i + 1, seen[name := Listed(seen, name) + [StoreKey(store)]])
  {
    hide StoreKey, DeclaredBy, Declarations;
    OneDeclaration(store, store.families, i);
    var name := store.families[i].config.name;
    var seen' := seen[name := Listed(seen, name) + [StoreKey(store)]];
    forall f ensures Listed(seen', f) == DeclaredBy(kept, f) + Declarations(store, store.families[..i + 1], f) {
      assert Listed(seen', f) == Listed(seen, f) + (if f == name then [StoreKey(store)] else []);
    }
  }

  lemma LastDeclaration(kept: seq<StoreSpec>, store: StoreSpec, seen: map<string, seq<string>>)
    requires DeclaredUpTo(kept, store, |store.families|, seen)
    ensures Declared(kept + [store], seen)
  {
    hide DeclaredBy, Declarations;
    assert store.families[..|store.families|] == store.families;
    OneMoreKept(kept, store);
  }

  lemma NoDeclarations(store: StoreSpec)
    ensures forall f :: Declarations(store, store.families[..0], f) == []
  {
  }

  lemma OneDeclaration(store: StoreSpec, families: seq<FamilySpec>, i: nat)
    requires i < |families|
    ensures forall f :: Declarations(store, families[..i + 1], f)
                     == Declarations(store, families[..i], f)
                         + (if families[i].config.name == f then [StoreKey(store)] else [])
  {
    hide StoreKey;
    assert families[..i + 1][..i] == families[..i];
  }

  lemma OneMoreKept(kept: seq<StoreSpec>, store: StoreSpec)
    ensures forall f :: DeclaredBy(kept + [store], f) == DeclaredBy(kept, f) + Declarations(store, store.families, f)
  {
    hide StoreKey, Declarations;
    assert (kept + [store])[..|kept|] == kept;
  }

  // ---- building -----------------------------------------------------------------------------

  /** Limits of the families that have a positive one; for a repeated name the last. */
  function FamilyLimits(families: seq<FamilySpec>): map<string, int> {
    if families == [] then map[]
    else
      var f, limits := families[|families| - 1], FamilyLimits(families[..|families| - 1]);
      if f.cardinalityLimit > 0 then limits[f.config.name := f.cardinalityLimit] else limits
  }

  function StoreLimit(spec: StoreSpec, resourceDefault: int): int {
    if spec.cardinalityLimit <= 0 then resourceDefault else spec.cardinalityLimit
  }

  /** store was built from spec. */
  ghost predicate BuiltFrom(store: StoreType, spec: StoreSpec, resourceDefault: int, warn: real, createdAt: string)
    reads store, store.cardinalityTracker, store.families
  {
    && store.Valid() && store.Abs() == Init(store.Machine())
    && store.Identifier() == StoreKey(spec)
    && store.labels == spec.labels && store.resolver == spec.resolver
    && store.configs == Configs(spec.families)
    && store.cardinalityTracker.Abs().limits
        == Limits(StoreLimit(spec, resourceDefault), FamilyLimits(spec.families), warn)
    && |store.headers| == |store.families| == |spec.families|
    && (forall i | 0 <= i < |spec.families| ::
          store.headers[i] == FamilyHeader(spec.families[i].config.name, spec.families[i].help))
    && forall i | 0 <= i < |spec.families| :: store.families[i].help == spec.families[i].help
        && store.families[i].createdAt == createdAt
  }

  function Configs(families: seq<FamilySpec>): seq<Config> {
    seq(|families|, i requires 0 <= i < |families| => families[i].config)
  }

  method BuildFamilies(specs: seq<FamilySpec>, createdAt: string) returns (families: seq<FamilyType>)
    ensures |families| == |specs| && Distinct(families)
    ensures forall i | 0 <= i < |families| :: fresh(families[i]) && families[i].Abs() == specs[i].config
              && !families[i].cutoff
    ensures forall i | 0 <= i < |families| :: families[i].help == specs[i].help && families[i].createdAt == createdAt
  {
    families := [];
    for i := 0 to |specs|
      invariant |families| == i && Distinct(families)
      invariant forall j | 0 <= j < i :: fresh(families[j]) && families[j].Abs() == specs[j].config
                  && !families[j].cutoff
      invariant forall j | 0 <= j < i :: families[j].help == specs[j].help && families[j].createdAt == createdAt
    {
      var family := new FamilyType(specs[i].config, specs[i].help, createdAt);
      families := families + [family];
    }
  }

  method BuildMetricHeaders(families: seq<FamilyType>) returns (headers: seq<string>)
    ensures |headers| == |families|
    ensures forall i | 0 <= i < |families| :: headers[i] == FamilyHeader(families[i].name, families[i].help)
  {
    headers := [];
    for i := 0 to |families|
      invariant |headers| == i
                  && forall j | 0 <= j < i :: headers[j] == FamilyHeader(families[j].name, families[j].help)
    {
      headers := headers + [FamilyHeader(families[i].name, families[i].help)];
    }
  }

  method BuildTracker(spec: StoreSpec, resourceDefault: int, warn: real) returns (tracker: CardinalityTracker)
    ensures fresh(tracker) && tracker.Valid()
    ensures tracker.Abs()
              == State(map[], {}, {}, Limits(StoreLimit(spec, resourceDefault), FamilyLimits(spec.families), warn))
  {
    tracker := new CardinalityTracker(StoreLimit(spec, resourceDefault), warn);
    for i := 0 to |spec.families|
      invariant fresh(tracker) && tracker.Valid()
      invariant var limits := Limits(StoreLimit(spec, resourceDefault), FamilyLimits(spec.families[..i]), warn);
                tracker.Abs() == State(map[], {}, {}, limits)
    {
      assert spec.families[..i + 1][..i] == spec.families[..i];
      if spec.families[i].cardinalityLimit > 0 {
        tracker.SetFamilyThreshold(spec.families[i].config.name, spec.families[i].cardinalityLimit);
      }
    }
    assert spec.families[..|spec.families|] == spec.families;
  }

  method BuildStore(env: Env, spec: StoreSpec, resourceDefault: int, warn: real, createdAt: string)
      returns (store: StoreType)
    requires env.Valid()
    ensures fresh(store) && fresh(store.cardinalityTracker) && forall f | f in store.families :: fresh(f)
    ensures BuiltFrom(store, spec, resourceDefault, warn, createdAt)
  {
    var families := BuildFamilies(spec.families, createdAt);
    var headers := BuildMetricHeaders(families);
    var tracker := BuildTracker(spec, resourceDefault, warn);
    store := new StoreType(env, spec.group, spec.version, spec.kind, families, spec.resolver, spec.labels, tracker,
        headers);
  }

  /** No two stores share a tracker or a family. */
  ghost predicate Independent(stores: seq<StoreType>) {
    forall i, j | 0 <= i < j < |stores| ::
      && stores[i] != stores[j] && stores[i].cardinalityTracker != stores[j].cardinalityTracker
      && forall f | f in stores[i].families :: f !in stores[j].families
  }

  function AllExpanded(expansions: seq<Option<seq<StoreSpec>>>): seq<StoreSpec> {
    if expansions == [] then []
    else
      AllExpanded(expansions[..|expansions| - 1])
      + (if expansions[|expansions| - 1] == None then [] else expansions[|expansions| - 1].value)
  }

  /** One store for each key of the expanded configuration, built from its first
      entry. An entry whose wildcards cannot be expanded is passed over. */
  method Build(env: Env, expansions: seq<Option<seq<StoreSpec>>>, resourceDefault: int, warn: real, createdAt: string)
    returns (stores: seq<StoreType>, seenStores: map<string, int>, seenFamilies: map<string, seq<string>>)
    requires env.Valid()
    ensures |stores| == |Firsts(AllExpanded(expansions))| && Independent(stores)
    ensures forall i | 0 <= i < |stores| :: fresh(stores[i])
              && BuiltFrom(stores[i], Firsts(AllExpanded(expansions))[i], resourceDefault, warn, createdAt)
    ensures forall i, j | 0 <= i < j < |stores| :: stores[i].Identifier() != stores[j].Identifier()
    ensures Counted(AllExpanded(expansions), seenStores) && Sum(seenStores) == |AllExpanded(expansions)|
    ensures Declared(Firsts(AllExpanded(expansions)), seenFamilies)
  {
    hide Sum, Counted, Declared, BuiltFrom, StoreKey, Firsts;
    var all: seq<StoreSpec> := [];
    for i := 0 to |expansions|
      invariant all == AllExpanded(expansions[..i])
    {
      assert expansions[..i + 1][..i] == expansions[..i];
      if expansions[i] != None {
        all := all + expansions[i].value;
      }
    }
    assert expansions[..|expansions|] == expansions;
    var deduplicated;
    deduplicated, seenStores, seenFamilies := Deduplicate(all);
    stores := BuildStores(env, deduplicated, resourceDefault, warn, createdAt);
    FirstsHaveKeys(all);
  }

  method BuildStores(env: Env, specs: seq<StoreSpec>, resourceDefault: int, warn: real, createdAt: string)
      returns (stores: seq<StoreType>)
    requires env.Valid()
    ensures |stores| == |specs| && Independent(stores)
    ensures forall i | 0 <= i < |stores| :: fresh(stores[i])
              && BuiltFrom(stores[i], specs[i], resourceDefault, warn, createdAt)
    ensures forall i | 0 <= i < |stores| :: stores[i].Identifier() == StoreKey(specs[i])
  {
    hide StoreKey, BuiltFrom;
    stores := [];
    for i := 0 to |specs|
      invariant |stores| == i && Independent(stores)
      invariant forall j | 0 <= j < i ::
                  && allocated(stores[j]) && fresh(stores[j]) && allocated(stores[j].cardinalityTracker)
                  && (forall f | f in stores[j].families :: allocated(f))
                  && BuiltFrom(stores[j], specs[j], resourceDefault, warn, createdAt)
                  && stores[j].Identifier() == StoreKey(specs[j])
    {
      var store := BuildStore(env, specs[i], resourceDefault, warn, createdAt);
      BuiltIdentifier(store, specs[i], resourceDefault, warn, createdAt);
      stores := stores + [store];
    }
  }

  lemma BuiltIdentifier(store: StoreType, spec: StoreSpec, resourceDefault: int, warn: real, createdAt: string)
    requires BuiltFrom(store, spec, resourceDefault, warn, createdAt)
    ensures store.Identifier() == StoreKey(spec)
  {
  }
}
