/**
 The ids of operations as strings.  The engine knows an operation by its address, the calls
 that lead to it; the SDK flattens the address into a string, hashing every enclosing context
 on the way.  Ids are unique over the whole context tree, with one exact exception.
 */
module OperationIds {
  import opened Wrappers
  import opened Operations
  import Decimal
  import ReplayEngine
  import ReplayCalls
  import ReplayRuns

  function NameOf(e: Entry): string {
    e.name.GetOr("op")
  }

  /** The part of an id that its own context gives: `name_counter`. */
  function Base(e: Entry): string {
    NameOf(e) + "_" + Decimal.Print(e.counter)
  }

  function Below(context: string, base: string): string {
    context + ":" + base
  }

  /** `next_operation_id`: a root operation's id is its base; below, the hashed id of the context comes first. */
  function Id(p: Path, hash: string -> string): string
    requires p != []
  {
    var base := Base(p[|p| - 1]);
    if |p| == 1 then base else Below(hash(Id(p[..|p| - 1], hash)), base)
  }

  predicate IsHash(s: string) {
    |s| == 32 && forall i :: 0 <= i < 32 ==> '0' <= s[i] <= '9' || 'a' <= s[i] <= 'f'
  }

  // ----- Names and numbers cannot be confused -----

  lemma UnderscoreIsLast(name: string, n: nat, i: int)
    requires 0 <= i < |Decimal.Print(n)|
    ensures (name + "_" + Decimal.Print(n))[|name| + 1 + i] != '_'
    ensures (name + "_" + Decimal.Print(n))[|name|] == '_'
  {
    assert (name + "_" + Decimal.Print(n))[|name| + 1 + i] == Decimal.Print(n)[i];
    assert Decimal.IsDigit(Decimal.Print(n)[i]);
  }

  lemma SuffixNotShorter(a: string, m: nat, b: string, n: nat)
    requires a + "_" + Decimal.Print(m) == b + "_" + Decimal.Print(n)
    ensures |a| <= |b|
  {
    if |b| < |a| {
      UnderscoreIsLast(a, m, 0);
      UnderscoreIsLast(b, n, |a| - |b| - 1);
    }
  }

  /** However a name ends, in underscores or digits, it and the counter can be told apart. */
  lemma BaseIsInjective(d: Entry, e: Entry)
    requires Base(d) == Base(e)
    ensures NameOf(d) == NameOf(e) && d.counter == e.counter
  {
    var a, b := NameOf(d), NameOf(e);
    SuffixNotShorter(a, d.counter, b, e.counter);
    SuffixNotShorter(b, e.counter, a, d.counter);
    assert Base(d)[..|a|] == a && Base(e)[..|b|] == b;
    assert Base(d)[|a| + 1..] == Decimal.Print(d.counter);
    assert Base(e)[|b| + 1..] == Decimal.Print(e.counter);
    Decimal.PrintIsInjective(d.counter, e.counter);
  }

  // ----- Addresses -----

  /** Two calls of one context that get the same base: the same number, and the same name or default. */
  predicate SameEntry(d: Entry, e: Entry) {
    NameOf(d) == NameOf(e) && d.counter == e.counter
  }

  predicate SameOperation(p: Path, q: Path) {
    |p| == |q| && forall i :: 0 <= i < |p| ==> SameEntry(p[i], q[i])
  }

  /** The name of root operation `p` spells out the hashed context and name of nested operation `q`. */
  predicate Spells(p: Path, q: Path, hash: string -> string)
    requires |p| == 1 && |q| > 1
  {
    && NameOf(p[0]) == hash(Id(q[..|q| - 1], hash)) + ":" + NameOf(q[|q| - 1])
    && p[0].counter == q[|q| - 1].counter
  }

  /** The ids in use are hashed to 32 hex characters, and different ones differently. */
  ghost predicate HashWorks(hash: string -> string, s: set<Path>) {
    && (forall p :: p in s ==> p != [] && IsHash(hash(Id(p, hash))))
    && (forall p, q :: p in s && q in s && hash(Id(p, hash)) == hash(Id(q, hash)) ==> Id(p, hash) == Id(q, hash))
  }

  /** Every enclosing context of an operation in use is in use. */
  ghost predicate Closed(s: set<Path>) {
    forall p :: p in s ==> p != [] && (|p| > 1 ==> p[..|p| - 1] in s)
  }

  ghost predicate NothingSpelt(hash: string -> string, s: set<Path>) {
    forall p, q :: p in s && q in s && |p| == 1 && |q| > 1 ==> !Spells(p, q, hash)
  }

  /** A root and a nested operation have the same id exactly when the root's name spells the nested id out. */
  lemma RootCollidesExactly(p: Path, q: Path, hash: string -> string)
    requires |p| == 1 && |q| > 1
    ensures Id(p, hash) == Id(q, hash) <==> Spells(p, q, hash)
  {
    var h := hash(Id(q[..|q| - 1], hash)) + ":";
    var e := q[|q| - 1];
    var d := Entry(Some(h + NameOf(e)), e.counter);
    assert Base(d) == h + Base(e);
    if Id(p, hash) == Id(q, hash) {
      BaseIsInjective(p[0], d);
    }
    if Spells(p, q, hash) {
      assert Base(p[0]) == Base(d);
    }
  }

  /** A root name that does not begin like a hash and a colon spells no nested id. */
  lemma OrdinaryNamesSpellNothing(p: Path, q: Path, hash: string -> string)
    requires |p| == 1 && |q| > 1 && IsHash(hash(Id(q[..|q| - 1], hash)))
    requires var name := NameOf(p[0]); |name| <= 32 || name[32] != ':' || !IsHash(name[..32])
    ensures !Spells(p, q, hash)
  {
    var h := hash(Id(q[..|q| - 1], hash));
    var spelt := h + ":" + NameOf(q[|q| - 1]);
    assert |spelt| > 32 && spelt[..32] == h && spelt[32] == ':';
  }

  lemma SplitAtColon(a: string, x: string, b: string, y: string)
    requires |a| == |b| && Below(a, x) == Below(b, y)
    ensures a == b && x == y
  {
    assert Below(a, x)[..|a|] == a && Below(b, y)[..|b|] == b;
    assert Below(a, x)[|a| + 1..] == x && Below(b, y)[|b| + 1..] == y;
  }

  lemma NestedIdSplits(p: Path, q: Path, hash: string -> string)
    requires |p| > 1 && |q| > 1
    requires |hash(Id(p[..|p| - 1], hash))| == |hash(Id(q[..|q| - 1], hash))|
    requires Id(p, hash) == Id(q, hash)
    ensures hash(Id(p[..|p| - 1], hash)) == hash(Id(q[..|q| - 1], hash))
    ensures Base(p[|p| - 1]) == Base(q[|q| - 1])
  {
    SplitAtColon(hash(Id(p[..|p| - 1], hash)), Base(p[|p| - 1]), hash(Id(q[..|q| - 1], hash)), Base(q[|q| - 1]));
  }

  lemma {:induction false} SameIdSameOperation(p: Path, q: Path, s: set<Path>, hash: string -> string)
    requires Closed(s) && HashWorks(hash, s) && NothingSpelt(hash, s)
    requires p in s && q in s && Id(p, hash) == Id(q, hash)
    ensures SameOperation(p, q)
    decreases |p|
  {
    if |p| == 1 && |q| == 1 {
      BaseIsInjective(p[0], q[0]);
    } else if |p| == 1 {
      RootCollidesExactly(p, q, hash);
    } else if |q| == 1 {
      RootCollidesExactly(q, p, hash);
    } else {
      NestedIdSplits(p, q, hash);
      BaseIsInjective(p[|p| - 1], q[|q| - 1]);
      SameIdSameOperation(p[..|p| - 1], q[..|q| - 1], s, hash);
      assert forall i :: 0 <= i < |p| - 1 ==> p[i] == p[..|p| - 1][i] && q[i] == q[..|q| - 1][i];
    }
  }

  lemma {:induction false} SameOperationSameId(p: Path, q: Path, hash: string -> string)
    requires p != [] && SameOperation(p, q)
    ensures Id(p, hash) == Id(q, hash)
    decreases |p|
  {
    if |p| > 1 {
      SameOperationSameId(p[..|p| - 1], q[..|q| - 1], hash);
    }
  }

  ghost predicate IdsAreUnique(hash: string -> string, s: set<Path>)
    requires forall p :: p in s ==> p != []
  {
    forall p, q :: p in s && q in s ==> (Id(p, hash) == Id(q, hash) <==> SameOperation(p, q))
  }

  /**
   Unique ids over the whole tree.  For arbitrary names and nesting, two addresses having one id
   exactly if they are one operation is the same as no root name spelling out a nested id.
   */
  lemma {:induction false} IdsAreUniqueExactly(s: set<Path>, hash: string -> string)
    requires Closed(s) && HashWorks(hash, s)
    ensures IdsAreUnique(hash, s) <==> NothingSpelt(hash, s)
  {
    if NothingSpelt(hash, s) {
      forall p, q | p in s && q in s
        ensures Id(p, hash) == Id(q, hash) <==> SameOperation(p, q)
      {
        if Id(p, hash) == Id(q, hash) {
          SameIdSameOperation(p, q, s, hash);
        } else if SameOperation(p, q) {
          SameOperationSameId(p, q, hash);
        }
      }
    } else {
      var p, q :| p in s && q in s && |p| == 1 && |q| > 1 && Spells(p, q, hash);
      RootCollidesExactly(p, q, hash);
      assert !SameOperation(p, q);
    }
  }

  // ----- The operations of a history -----

  /** The operations of the uninterrupted run, the one it stops at and open contexts included. */
  ghost function Used(p: ReplayEngine.Prog, h: seq<ReplayRuns.Event>, env: Env): set<Path>
    requires ReplayEngine.Total(p)
  {
    set a | a in ReplayCalls.ReachedBy(p, h, env)
  }

  lemma UsedIsClosed(p: ReplayEngine.Prog, h: seq<ReplayRuns.Event>, env: Env)
    requires ReplayEngine.Total(p)
    ensures Closed(Used(p, h, env))
  {
    forall a | a in Used(p, h, env)
      ensures a != [] && (|a| > 1 ==> a[..|a| - 1] in Used(p, h, env))
    {
      ReplayCalls.ContextIsReached(p, [], 0, ReplayRuns.StoreAfter(p, h, env), env, a);
    }
  }

  /** Names that look alike once defaults are filled in belong to one operation. */
  lemma {:induction false} SameOperationIsOne(
      p: ReplayEngine.Prog, h: seq<ReplayRuns.Event>, env: Env, a: Path, b: Path)
    requires ReplayEngine.Total(p)
    requires a in Used(p, h, env) && b in Used(p, h, env) && SameOperation(a, b)
    ensures a == b
    decreases |a|
  {
    UsedIsClosed(p, h, env);
    var n := |a| - 1;
    assert forall i :: 0 <= i < n ==> a[..n][i] == a[i] && b[..n][i] == b[i];
    if n > 0 {
      SameOperationIsOne(p, h, env, a[..n], b[..n]);
    } else {
      assert a[..0] == b[..0];
    }
    ReplayCalls.OneCallPerPosition(p, [], 0, ReplayRuns.StoreAfter(p, h, env), env, a, b);
  }

  /** Used operations are identified by their ids, and by the hashes of their ids. */
  lemma IdsIdentify(
      p: ReplayEngine.Prog, h: seq<ReplayRuns.Event>, env: Env, hash: string -> string, a: Path, b: Path)
    requires ReplayEngine.Total(p)
    requires HashWorks(hash, Used(p, h, env)) && NothingSpelt(hash, Used(p, h, env))
    requires a in Used(p, h, env) && b in Used(p, h, env)
    ensures a != [] && b != []
    ensures Id(a, hash) == Id(b, hash) <==> a == b
    ensures hash(Id(a, hash)) == hash(Id(b, hash)) <==> a == b
  {
    UsedIsClosed(p, h, env);
    if Id(a, hash) == Id(b, hash) {
      SameIdSameOperation(a, b, Used(p, h, env), hash);
      SameOperationIsOne(p, h, env, a, b);
    }
  }

  /**
   Operations that invocations `i` and `j` of a history call, whether they return, suspend or
   are cut, have the same id if and only if they are the same operation.  The invocations may be
   one and the same.
   */
  lemma SameIdOnlyIfSame(
      p: ReplayEngine.Prog, h: seq<ReplayRuns.Event>, i: nat, j: nat, a: Path, b: Path, env: Env, hash: string -> string)
    requires ReplayEngine.Total(p) && ReplayEngine.KeepsLimits(p) && CodecRoundTrips(env)
    requires i < |h| && h[i].Invoke? && a in ReplayCalls.CalledBy(p, h, i, env)
    requires j < |h| && h[j].Invoke? && b in ReplayCalls.CalledBy(p, h, j, env)
    requires HashWorks(hash, Used(p, h, env)) && NothingSpelt(hash, Used(p, h, env))
    ensures a != [] && b != []
    ensures Id(a, hash) == Id(b, hash) <==> a == b
  {
    ReplayCalls.CallsAreReached(p, h, i, env, a);
    ReplayCalls.CallsAreReached(p, h, j, env, b);
    IdsIdentify(p, h, env, hash, a, b);
  }

  /** So each record of the store, kept under the hash of an id, is that of one operation. */
  lemma RecordsDoNotCollide(
      p: ReplayEngine.Prog, h: seq<ReplayRuns.Event>, a: Path, b: Path, env: Env, hash: string -> string)
    requires ReplayEngine.Total(p) && ReplayEngine.KeepsLimits(p) && CodecRoundTrips(env)
    requires a in ReplayRuns.StoreAfter(p, h, env) && b in ReplayRuns.StoreAfter(p, h, env)
    requires HashWorks(hash, Used(p, h, env)) && NothingSpelt(hash, Used(p, h, env))
    ensures a != [] && b != []
    ensures hash(Id(a, hash)) == hash(Id(b, hash)) <==> a == b
  {
    ReplayCalls.RecordsAreReached(p, h, env, a);
    ReplayCalls.RecordsAreReached(p, h, env, b);
    IdsIdentify(p, h, env, hash, a, b);
  }

  // ----- How ids look -----

  /** `name_number`, or `op_number` without a name; below a context its hashed id and a colon come first. */
  lemma IdsLookSo(name: string, n: nat, context: Path, hash: string -> string)
    requires context != []
    ensures Id([Entry(Some(name), n)], hash) == name + "_" + Decimal.Print(n)
    ensures Id([Entry(None, n)], hash) == "op" + "_" + Decimal.Print(n)
    ensures Id(context + [Entry(Some(name), n)], hash) == hash(Id(context, hash)) + ":" + (name + "_" + Decimal.Print(n))
    ensures Decimal.Print(0) == "0" && Decimal.Print(10) == "10" && Decimal.Print(207) == "207"
  {
    assert (context + [Entry(Some(name), n)])[..|context|] == context;
  }
}
