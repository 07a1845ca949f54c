/**
 Merging coverage batches by the higher hit count
 (scripts/merge-coverage-map-into.ts): when a join, and when not.
 */
module CoverageMerge {
  import opened Wrappers

  type HitMap = map<string, nat>
  type BranchMap = map<string, seq<nat>>

  datatype FileCov = FileCov(s: HitMap, f: HitMap, b: BranchMap)

  type Store = map<string, FileCov>

  function Max(a: nat, b: nat): nat {
    if a < b then b else a
  }

  function Hit(m: HitMap, id: string): nat {
    if id in m then m[id] else 0
  }

  function ArmOf(m: BranchMap, id: string, i: nat): nat {
    if id in m && i < |m[id]| then m[id][i] else 0
  }

  function MaxHits(base: HitMap, incoming: HitMap): HitMap {
    map id | id in base.Keys + incoming.Keys :: Max(Hit(base, id), Hit(incoming, id))
  }

  /** An incoming array decides the length. */
  function MaxArms(base: BranchMap, incoming: BranchMap, id: string): seq<nat>
    requires id in incoming
  {
    seq(|incoming[id]|, i requires 0 <= i < |incoming[id]| => Max(ArmOf(base, id, i), incoming[id][i]))
  }

  function MaxBranches(base: BranchMap, incoming: BranchMap): BranchMap {
    map id | id in base.Keys + incoming.Keys :: if id in incoming then MaxArms(base, incoming, id) else base[id]
  }

  function MergeFile(base: FileCov, incoming: FileCov): FileCov {
    FileCov(MaxHits(base.s, incoming.s), MaxHits(base.f, incoming.f), MaxBranches(base.b, incoming.b))
  }

  function Merge(store: Store, incoming: Store): Store {
    map file | file in store.Keys + incoming.Keys ::
      if file !in incoming then store[file]
      else if file !in store then incoming[file]
      else MergeFile(store[file], incoming[file])
  }

  // ---- The loops as written; entries come in any order ----

  /** Part-way through a loop that overwrites `base`: the entries not in `todo` are already those of `goal`. */
  ghost predicate Towards<V>(out: map<string, V>, base: map<string, V>, goal: map<string, V>, keys: set<string>, todo: set<string>) {
    && todo <= keys
    && (forall id :: id in out <==> id in base || id in keys - todo)
    && (forall id | id in keys - todo :: id in goal && out[id] == goal[id])
    && (forall id | id in base && id !in keys - todo :: out[id] == base[id])
  }

  lemma Arrived<V>(out: map<string, V>, base: map<string, V>, goal: map<string, V>, keys: set<string>)
    requires Towards(out, base, goal, keys, {})
    requires goal.Keys == base.Keys + keys && forall id | id in base && id !in keys :: goal[id] == base[id]
    ensures out == goal
  {
    assert keys - {} == keys;
    forall id ensures (id in out <==> id in goal) && (id in goal ==> out[id] == goal[id]) {
    }
  }

  lemma OneMore<V>(out: map<string, V>, base: map<string, V>, goal: map<string, V>, keys: set<string>, todo: set<string>, id: string)
    requires Towards(out, base, goal, keys, todo) && id in todo && id in goal
    ensures Towards(out[id := goal[id]], base, goal, keys, todo - {id})
  {
  }

  method MaxHitMap(base: HitMap, incoming: HitMap) returns (out: HitMap)
    ensures out == MaxHits(base, incoming)
  {
    hide Towards;
    ghost var goal := MaxHits(base, incoming);
    out := base;
    var todo := incoming.Keys;
    Setout(base, goal, todo);
    while todo != {}
      invariant Towards(out, base, goal, incoming.Keys, todo) && todo <= incoming.Keys
      decreases |todo|
    {
      var id :| id in todo;
      OneMore(out, base, goal, incoming.Keys, todo, id);
      out := out[id := Max(Hit(base, id), incoming[id])];
      todo := todo - {id};
    }
    Arrived(out, base, goal, incoming.Keys);
  }

  method MaxBranchMap(base: BranchMap, incoming: BranchMap) returns (out: BranchMap)
    ensures out == MaxBranches(base, incoming)
  {
    hide Towards, MaxArms;
    ghost var goal := MaxBranches(base, incoming);
    out := base;
    var todo := incoming.Keys;
    Setout(base, goal, todo);
    while todo != {}
      invariant Towards(out, base, goal, incoming.Keys, todo) && todo <= incoming.Keys
      decreases |todo|
    {
      var id :| id in todo;
      OneMore(out, base, goal, incoming.Keys, todo, id);
      out := out[id := MaxArms(base, incoming, id)];
      todo := todo - {id};
    }
    Arrived(out, base, goal, incoming.Keys);
  }

  method MergeFileCov(base: FileCov, incoming: FileCov) returns (cov: FileCov)
    ensures cov == MergeFile(base, incoming)
  {
    var s := MaxHitMap(base.s, incoming.s);
    var f := MaxHitMap(base.f, incoming.f);
    var b := MaxBranchMap(base.b, incoming.b);
    return FileCov(s, f, b);
  }

  method MergeInto(target: Store, incoming: Store) returns (store: Store)
    ensures store == Merge(target, incoming)
  {
    hide Towards, MergeFile;
    ghost var goal := Merge(target, incoming);
    store := target;
    var todo := incoming.Keys;
    Setout(target, goal, todo);
    while todo != {}
      invariant Towards(store, target, goal, incoming.Keys, todo) && todo <= incoming.Keys
      decreases |todo|
    {
      var file :| file in todo;
      NotYet(store, target, goal, incoming.Keys, todo, file);
      OneMore(store, target, goal, incoming.Keys, todo, file);
      if file in store {
        var cov := MergeFileCov(store[file], incoming[file]);
        store := store[file := cov];
      } else {
        store := store[file := incoming[file]];
      }
      todo := todo - {file};
    }
    Arrived(store, target, goal, incoming.Keys);
  }

  lemma Setout<V>(base: map<string, V>, goal: map<string, V>, keys: set<string>)
    ensures Towards(base, base, goal, keys, keys)
  {
  }

  lemma NotYet<V>(out: map<string, V>, base: map<string, V>, goal: map<string, V>, keys: set<string>, todo: set<string>, id: string)
    requires Towards(out, base, goal, keys, todo) && id in todo
    ensures id in out <==> id in base
    ensures id in base ==> out[id] == base[id]
  {
  }

  // ---- A store read counter by counter ----

  datatype Counter =
    | File(file: string)
    | Stmt(file: string, id: string)
    | Fn(file: string, id: string)
    | Branch(file: string, id: string)
    | Arm(file: string, id: string, i: nat)

  function Lookup(m: HitMap, id: string): Option<nat> {
    if id in m then Some(m[id]) else None
  }

  /** A counter's hits; for a branch its number of arms, for a file nothing but its presence. */
  function Value(store: Store, c: Counter): Option<nat> {
    if c.file !in store then None
    else
      var cov := store[c.file];
      match c
      case File(_) => Some(0)
      case Stmt(_, id) => Lookup(cov.s, id)
      case Fn(_, id) => Lookup(cov.f, id)
      case Branch(_, id) => if id in cov.b then Some(|cov.b[id]|) else None
      case Arm(_, id, i) => if id in cov.b && i < |cov.b[id]| then Some(cov.b[id][i]) else None
  }

  function Join(a: Option<nat>, b: Option<nat>): Option<nat> {
    if a == None then b else if b == None then a else Some(Max(a.value, b.value))
  }

  /** Shared branches have equally many arms. */
  ghost predicate Aligned(a: Store, b: Store) {
    forall file, id | file in a && file in b && id in a[file].b && id in b[file].b :: |a[file].b[id]| == |b[file].b[id]|
  }

  /** A store is its counters. */
  lemma Extensional(a: Store, b: Store)
    requires forall c :: Value(a, c) == Value(b, c)
    ensures a == b
  {
    forall file ensures file in a <==> file in b {
      assert Value(a, File(file)) == Value(b, File(file));
    }
    forall file | file in a ensures a[file] == b[file] {
      SameFile(a, b, file);
    }
  }

  lemma SameFile(a: Store, b: Store, file: string)
    requires forall c :: Value(a, c) == Value(b, c)
    requires file in a && file in b
    ensures a[file] == b[file]
  {
    var x, y := a[file], b[file];
    forall id ensures Lookup(x.s, id) == Lookup(y.s, id) && Lookup(x.f, id) == Lookup(y.f, id) {
      assert Value(a, Stmt(file, id)) == Value(b, Stmt(file, id)) && Value(a, Fn(file, id)) == Value(b, Fn(file, id));
    }
    SameHits(x.s, y.s);
    SameHits(x.f, y.f);
    forall id ensures (id in x.b <==> id in y.b) && (id in x.b ==> x.b[id] == y.b[id]) {
      assert Value(a, Branch(file, id)) == Value(b, Branch(file, id));
      if id in x.b {
        forall i | 0 <= i < |x.b[id]| ensures x.b[id][i] == y.b[id][i] {
          assert Value(a, Arm(file, id, i)) == Value(b, Arm(file, id, i));
        }
      }
    }
    assert x.b == y.b;
  }

  lemma SameHits(x: HitMap, y: HitMap)
    requires forall id :: Lookup(x, id) == Lookup(y, id)
    ensures x == y
  {
    forall id ensures (id in x <==> id in y) && (id in x ==> x[id] == y[id]) {
      assert Lookup(x, id) == Lookup(y, id);
    }
  }

  /** On aligned stores, merging takes the higher count of every counter. */
  lemma MergeJoins(a: Store, b: Store, c: Counter)
    requires Aligned(a, b)
    ensures Value(Merge(a, b), c) == Join(Value(a, c), Value(b, c))
  {
  }

  lemma AlignedMerged(a: Store, b: Store, c: Store)
    requires Aligned(a, b) && Aligned(a, c) && Aligned(b, c)
    ensures Aligned(Merge(a, b), c) && Aligned(c, Merge(a, b))
  {
  }

  lemma AlignedTurns(a: Store, b: Store)
    ensures Aligned(a, b) <==> Aligned(b, a)
    ensures Aligned(a, a)
  {
  }

  /** Merging is a join: the order, the grouping and repetition do not matter. */
  lemma MergeCommutes(a: Store, b: Store)
    requires Aligned(a, b)
    ensures Merge(a, b) == Merge(b, a)
  {
    AlignedTurns(a, b);
    hide Merge, Value, Aligned;
    forall x: Counter ensures Value(Merge(a, b), x) == Value(Merge(b, a), x) {
      MergeJoins(a, b, x);
      MergeJoins(b, a, x);
    }
    Extensional(Merge(a, b), Merge(b, a));
  }

  lemma MergeAssociates(a: Store, b: Store, c: Store)
    requires Aligned(a, b) && Aligned(a, c) && Aligned(b, c)
    ensures Merge(Merge(a, b), c) == Merge(a, Merge(b, c))
  {
    AlignedTurns(a, b);
    AlignedTurns(a, c);
    AlignedMerged(a, b, c);
    AlignedMerged(b, c, a);
    hide Merge, Value, Aligned;
    forall x: Counter ensures Value(Merge(Merge(a, b), c), x) == Value(Merge(a, Merge(b, c)), x) {
      MergeJoins(a, b, x);
      MergeJoins(b, c, x);
      MergeJoins(Merge(a, b), c, x);
      MergeJoins(a, Merge(b, c), x);
    }
    Extensional(Merge(Merge(a, b), c), Merge(a, Merge(b, c)));
  }

  lemma MergeRepeats(a: Store, b: Store)
    requires Aligned(a, b)
    ensures Merge(a, a) == a && Merge(Merge(a, b), b) == Merge(a, b)
  {
    AlignedTurns(a, b);
    AlignedTurns(b, a);
    AlignedMerged(a, b, b);
    hide Merge, Value, Aligned;
    forall x: Counter ensures Value(Merge(a, a), x) == Value(a, x) && Value(Merge(Merge(a, b), b), x) == Value(Merge(a, b), x) {
      MergeJoins(a, a, x);
      MergeJoins(a, b, x);
      MergeJoins(Merge(a, b), b, x);
    }
    Extensional(Merge(a, a), a);
    Extensional(Merge(Merge(a, b), b), Merge(a, b));
  }

  // ---- Folding batches ----

  /** Batches merged one after another into an empty store. */
  function Fold(batches: seq<Store>): Store {
    if batches == [] then map[] else Merge(Fold(batches[..|batches| - 1]), batches[|batches| - 1])
  }

  ghost predicate AllAligned(batches: seq<Store>) {
    forall i, j | 0 <= i < |batches| && 0 <= j < |batches| :: Aligned(batches[i], batches[j])
  }

  /** `v` is the highest count of `c` in any batch, `None` when no batch has it. */
  ghost predicate IsHighest(v: Option<nat>, batches: seq<Store>, c: Counter) {
    && (v == None ==> forall k | 0 <= k < |batches| :: Value(batches[k], c) == None)
    && (v.Some? ==>
          && (exists k :: 0 <= k < |batches| && Value(batches[k], c) == v)
          && forall k | 0 <= k < |batches| && Value(batches[k], c).Some? :: Value(batches[k], c).value <= v.value)
  }

  lemma {:induction false} FoldAligned(batches: seq<Store>, n: nat, x: Store)
    requires n <= |batches| && AllAligned(batches)
    requires forall k | 0 <= k < |batches| :: Aligned(batches[k], x)
    ensures Aligned(Fold(batches[..n]), x)
    decreases n
  {
    if n > 0 {
      hide Aligned, Merge;
      var b := batches[n - 1];
      assert batches[..n][..n - 1] == batches[..n - 1];
      forall k | 0 <= k < |batches| ensures Aligned(batches[k], b) {
      }
      FoldAligned(batches, n - 1, b);
      FoldAligned(batches, n - 1, x);
      AlignedMerged(Fold(batches[..n - 1]), b, x);
    }
  }

  /** The fold holds the highest count of each counter over the batches. */
  lemma {:induction false} FoldIsHighest(batches: seq<Store>, n: nat, c: Counter)
    requires n <= |batches| && AllAligned(batches)
    ensures IsHighest(Value(Fold(batches[..n]), c), batches[..n], c)
    decreases n
  {
    if n > 0 {
      var b, before := batches[n - 1], batches[..n - 1];
      FoldIsHighest(batches, n - 1, c);
      FoldAligned(batches, n - 1, b);
      MergeJoins(Fold(before), b, c);
      assert batches[..n][..n - 1] == before;
      hide Merge, Value, AllAligned, Aligned;
      HighestNext(Value(Fold(before), c), before, b, c);
      assert batches[..n] == before + [b];
    }
  }

  lemma HighestNext(v: Option<nat>, before: seq<Store>, b: Store, c: Counter)
    requires IsHighest(v, before, c)
    ensures IsHighest(Join(v, Value(b, c)), before + [b], c)
  {
    hide Value;
    var all := before + [b];
    assert all[|before|] == b && forall k | 0 <= k < |before| :: all[k] == before[k];
    if v.Some? {
      var k :| 0 <= k < |before| && Value(before[k], c) == v;
      assert Value(all[k], c) == v;
    }
  }

  /** Folding the same batches in any order, with any repeats, gives the same store. */
  lemma FoldIgnoresOrder(a: seq<Store>, b: seq<Store>)
    requires AllAligned(a) && AllAligned(b)
    requires forall x :: x in a <==> x in b
    ensures Fold(a) == Fold(b)
  {
    assert a[..|a|] == a && b[..|b|] == b;
    forall c: Counter ensures Value(Fold(a), c) == Value(Fold(b), c) {
      FoldIsHighest(a, |a|, c);
      FoldIsHighest(b, |b|, c);
      hide Fold, Value, AllAligned;
      HighestAgree(Value(Fold(a), c), Value(Fold(b), c), a, b, c);
    }
    Extensional(Fold(a), Fold(b));
  }

  lemma HighestAgree(v: Option<nat>, w: Option<nat>, a: seq<Store>, b: seq<Store>, c: Counter)
    requires IsHighest(v, a, c) && IsHighest(w, b, c)
    requires forall x :: x in a <==> x in b
    ensures v == w
  {
    hide Value;
    if v.Some? {
      var k :| 0 <= k < |a| && Value(a[k], c) == v;
      assert a[k] in b;
    }
    if w.Some? {
      var k :| 0 <= k < |b| && Value(b[k], c) == w;
      assert b[k] in a;
    }
  }

  // ---- Without alignment ----

  function Hits(store: Store, c: Counter): nat {
    Value(store, c).GetOr(0)
  }

  predicate Covered(store: Store, file: string, id: string) {
    file in store && id in store[file].b
  }

  /** Every hit arm of the store is within the incoming array of its branch, if there is one. */
  ghost predicate KeepsTails(store: Store, incoming: Store) {
    forall file, id | Covered(store, file, id) && Covered(incoming, file, id) ::
      forall i | |incoming[file].b[id]| <= i < |store[file].b[id]| :: store[file].b[id][i] == 0
  }

  /** The larger of two counts, whichever it is. */
  predicate IsLarger(n: nat, a: nat, b: nat) {
    n >= a && n >= b && (n == a || n == b)
  }

  /**
   A file in both, aligned or not: it has the statements, functions and branches of
   either, each count the larger with a missing one as zero; a branch in the incoming
   batch has the incoming number of arms, any other is kept.
   */
  lemma MergedExactly(store: Store, incoming: Store, file: string, id: string)
    requires file in store && file in incoming
    ensures var a, b, c := store[file], incoming[file], Merge(store, incoming)[file];
      && (id in c.s <==> id in a.s || id in b.s) && (id in c.f <==> id in a.f || id in b.f) && (id in c.b <==> id in a.b || id in b.b)
      && (id in c.s ==> IsLarger(c.s[id], if id in a.s then a.s[id] else 0, if id in b.s then b.s[id] else 0))
      && (id in c.f ==> IsLarger(c.f[id], if id in a.f then a.f[id] else 0, if id in b.f then b.f[id] else 0))
      && (id in b.b ==> |c.b[id]| == |b.b[id]| && forall i | 0 <= i < |b.b[id]| ::
            IsLarger(c.b[id][i], if id in a.b && i < |a.b[id]| then a.b[id][i] else 0, b.b[id][i]))
      && (id in a.b && id !in b.b ==> c.b[id] == a.b[id])
  {
  }

  /** A file in only one of them is taken as it is. */
  lemma MergedAlone(store: Store, incoming: Store, file: string)
    ensures file in Merge(store, incoming) <==> file in store || file in incoming
    ensures file in store && file !in incoming ==> Merge(store, incoming)[file] == store[file]
    ensures file !in store && file in incoming ==> Merge(store, incoming)[file] == incoming[file]
  {
  }

  /** Merging lowers no count exactly when no shorter incoming array cuts off a hit arm. */
  lemma NeverLowersWhen(store: Store, incoming: Store)
    ensures KeepsTails(store, incoming)
       <==> forall c: Counter | !c.File? && !c.Branch? :: Hits(Merge(store, incoming), c) >= Hits(store, c)
  {
    if KeepsTails(store, incoming) {
      forall c: Counter | !c.File? && !c.Branch? ensures Hits(Merge(store, incoming), c) >= Hits(store, c) {
        KeptHere(store, incoming, c);
      }
    } else {
      var file, id, i :| Covered(store, file, id) && Covered(incoming, file, id)
        && |incoming[file].b[id]| <= i < |store[file].b[id]| && store[file].b[id][i] != 0;
      var c := Arm(file, id, i);
      assert Value(Merge(store, incoming), c) == None;
      assert Hits(Merge(store, incoming), c) < Hits(store, c);
    }
  }

  lemma KeptHere(store: Store, incoming: Store, c: Counter)
    requires KeepsTails(store, incoming) && !c.File? && !c.Branch?
    ensures Hits(Merge(store, incoming), c) >= Hits(store, c)
  {
    if c.Arm? {
      assert Covered(store, c.file, c.id) && Covered(incoming, c.file, c.id) ==>
        forall i | |incoming[c.file].b[c.id]| <= i < |store[c.file].b[c.id]| :: store[c.file].b[c.id][i] == 0;
    }
  }
}
