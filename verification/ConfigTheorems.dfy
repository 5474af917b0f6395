/** What the order of the environment means for the configuration. */
module ConfigTheorems {
  import opened JsonValues
  import opened Config

  // ---------- Paths that do not meet ----------

  predicate IsPrefix(p: seq<string>, q: seq<string>) {
    p <= q
  }

  predicate Unrelated(p: seq<string>, q: seq<string>) {
    !IsPrefix(p, q) && !IsPrefix(q, p)
  }

  lemma {:induction false} UnrelatedTails(p: seq<string>, q: seq<string>)
    requires Unrelated(p, q)
    ensures p != [] && q != []
    ensures p[0] == q[0] ==> Unrelated(p[1..], q[1..])
  {
  }

  /** No plain value stands on the way. */
  predicate Free(tree: Json, path: seq<string>) {
    path == [] || (tree.Obj? && (path[0] in tree.fields ==> Free(tree.fields[path[0]], path[1..])))
  }

  lemma {:induction false} AssignSucceedsIff(tree: Json, path: seq<string>, value: Json)
    ensures Assign(tree, path, value).Some? <==> Free(tree, path)
    decreases |path|
  {
    if path != [] && tree.Obj? {
      AssignSucceedsIff(Child(tree, path[0]), path[1..], value);
      FreeNothing(path[1..]);
    }
  }

  lemma {:induction false} FreeNothing(path: seq<string>)
    ensures Free(Obj(map[]), path)
  {
  }

  lemma {:induction false} AssignReadsBack(tree: Json, path: seq<string>, value: Json)
    requires Assign(tree, path, value).Some?
    ensures Lookup(Assign(tree, path, value).value, path) == Some(value)
    decreases |path|
  {
    if path != [] {
      AssignReadsBack(Child(tree, path[0]), path[1..], value);
    }
  }

  /** An assignment does not disturb an unrelated path: what is read there, whether it is free, whether it is
      missed altogether. */
  lemma {:induction false} AssignLeavesUnrelated(tree: Json, q: seq<string>, value: Json, p: seq<string>)
    requires Unrelated(p, q) && Assign(tree, q, value).Some?
    ensures var after := Assign(tree, q, value).value;
            && Lookup(after, p) == Lookup(tree, p)
            && (Free(tree, p) ==> Free(after, p))
            && (Misses(tree, p) ==> Misses(after, p))
    decreases |q|
  {
    UnrelatedTails(p, q);
    if p[0] == q[0] {
      AssignLeavesUnrelated(Child(tree, q[0]), q[1..], value, p[1..]);
      FreeNothing(p[1..]);
      UnrelatedTails(p[1..], q[1..]);
    }
  }

  /** Assignments at unrelated paths commute, errors included. */
  lemma {:induction false} AssignsCommute(tree: Json, a: Override, b: Override)
    requires Unrelated(a.path, b.path)
    ensures Insert(Insert(Some(tree), a), b) == Insert(Insert(Some(tree), b), a)
    decreases |a.path|
  {
    UnrelatedTails(a.path, b.path);
    if tree.Obj? {
      if a.path[0] == b.path[0] {
        var inA, inB := Override(a.path[1..], a.value), Override(b.path[1..], b.value);
        AssignsCommute(Child(tree, a.path[0]), inA, inB);
        AssignTwice(tree, a, b);
        AssignTwice(tree, b, a);
      } else {
        AssignApart(tree, a, b);
        AssignApart(tree, b, a);
        BothWays(tree.fields, a.path[0], b.path[0]);
      }
    }
  }

  lemma {:induction false} BothWays(d: Fields, k: string, l: string)
    requires k != l
    ensures forall x: Json, y: Json {:trigger d + map[k := x, l := y]} :: d + map[k := x, l := y] == d + map[l := y, k := x]
  {
  }

  /** Under one first part, two assignments are two assignments in the child. */
  lemma {:induction false} AssignTwice(tree: Json, a: Override, b: Override)
    requires tree.Obj? && a.path != [] && b.path != [] && a.path[0] == b.path[0]
    ensures Insert(Insert(Some(tree), a), b) ==
            match Insert(Insert(Some(Child(tree, a.path[0])), Override(a.path[1..], a.value)), Override(b.path[1..], b.value))
            case None => None
            case Some(sub) => Some(Obj(tree.fields[a.path[0] := sub]))
  {
    var first := Assign(Child(tree, a.path[0]), a.path[1..], a.value);
    if first.Some? {
      var mid := Obj(tree.fields[a.path[0] := first.value]);
      var second := Assign(first.value, b.path[1..], b.value);
      assert Child(mid, b.path[0]) == first.value;
      if second.Some? {
        assert mid.fields[b.path[0] := second.value] == tree.fields[a.path[0] := second.value];
      }
    }
  }

  /** Under different first parts, each assignment changes its own child. */
  lemma {:induction false} AssignApart(tree: Json, a: Override, b: Override)
    requires tree.Obj? && a.path != [] && b.path != [] && a.path[0] != b.path[0]
    ensures var x, y := Assign(Child(tree, a.path[0]), a.path[1..], a.value), Assign(Child(tree, b.path[0]), b.path[1..], b.value);
            Insert(Insert(Some(tree), a), b) ==
            if x.None? || y.None? then None
            else Some(Obj(tree.fields + map[a.path[0] := x.value, b.path[0] := y.value]))
  {
    var x, y := Assign(Child(tree, a.path[0]), a.path[1..], a.value), Assign(Child(tree, b.path[0]), b.path[1..], b.value);
    if x.Some? {
      var mid := Obj(tree.fields[a.path[0] := x.value]);
      assert Child(mid, b.path[0]) == Child(tree, b.path[0]);
      if y.Some? {
        assert mid.fields[b.path[0] := y.value] == tree.fields + map[a.path[0] := x.value, b.path[0] := y.value];
      }
    }
  }

  // ---------- Orders that do not matter ----------

  /** Every two overrides are equal, or neither path leads through the other. */
  predicate Compatible(env: seq<Override>) {
    forall i, j :: 0 <= i < j < |env| ==> Agree(env[i], env[j])
  }

  predicate Agree(a: Override, b: Override) {
    a == b || Unrelated(a.path, b.path)
  }

  /** An override moved past equal and unrelated ones changes nothing. */
  lemma {:induction false} MoveToEnd(before: seq<Override>, o: Override, rest: seq<Override>)
    requires forall k :: 0 <= k < |rest| ==> Agree(o, rest[k])
    ensures Build(before + [o] + rest) == Build(before + rest + [o])
  {
    if rest == [] {
      assert before + [o] + rest == before + rest + [o];
    } else {
      var most, last := Init(rest), Last(rest);
      var t := Build(before + most);
      assert Init(before + [o] + rest) == before + [o] + most;
      assert Init(before + rest + [o]) == before + rest && Init(before + rest) == before + most;
      assert Init(before + most + [o]) == before + most;
      MoveToEnd(before, o, most);
      if t.Some? && o != last {
        AssignsCommute(t.value, o, last);
      }
    }
  }

  /** Compatible overrides build the same tree in every order. */
  lemma {:induction false} OrderDoesNotMatter(env: seq<Override>, other: seq<Override>)
    requires Compatible(env) && multiset(env) == multiset(other)
    ensures Build(env) == Build(other)
  {
    if other == [] {
      assert |multiset(env)| == 0;
      assert env == [];
    } else {
      var last, most := Last(other), Init(other);
      var i := RemoveLast(env, other);
      var before, rest := env[..i], env[i + 1..];
      forall k | 0 <= k < |rest| ensures Agree(last, rest[k]) {
        assert rest[k] == env[i + 1 + k];
      }
      MoveToEnd(before, last, rest);
      assert Compatible(before + rest);
      OrderDoesNotMatter(before + rest, most);
      BuildLast(before + rest, last);
      BuildLast(most, last);
      assert env == before + [last] + rest && other == most + [last];
    }
  }

  lemma {:induction false} BuildLast(env: seq<Override>, o: Override)
    ensures Build(env + [o]) == Insert(Build(env), o)
  {
  }

  /** Where the last element of a permutation stands, and that the others are a permutation again. */
  lemma {:induction false} RemoveLast(env: seq<Override>, other: seq<Override>) returns (i: nat)
    requires other != [] && multiset(env) == multiset(other)
    ensures i < |env| && env[i] == Last(other)
    ensures multiset(env[..i] + env[i + 1..]) == multiset(Init(other))
  {
    WithLast(other);
    assert Last(other) in multiset(env);
    i :| 0 <= i < |env| && env[i] == Last(other);
    var rest := TakeOne(env, i);
    Cancel(multiset(rest), multiset(Init(other)), multiset{Last(other)});
  }

  lemma {:induction false} WithoutIndex(env: seq<Override>, i: nat)
    requires i < |env|
    ensures multiset(env[..i] + env[i + 1..]) == multiset(env) - multiset{env[i]}
  {
    assert env == env[..i] + [env[i]] + env[i + 1..];
    WithoutMiddle(env[..i], env[i], env[i + 1..]);
  }

  lemma {:induction false} WithoutMiddle(a: seq<Override>, x: Override, b: seq<Override>)
    ensures multiset(a + b) == multiset(a + [x] + b) - multiset{x}
  {
  }

  /** A plain value on the way blocks every longer path. */
  lemma {:induction false} ValueBlocks(tree: Json, short: seq<string>, long: seq<string>)
    requires Lookup(tree, short).Some? && !Lookup(tree, short).value.Obj? && short <= long && short != long
    ensures !Free(tree, long)
    decreases |short|
  {
    if short != [] {
      assert short[0] == long[0];
      ValueBlocks(tree.fields[short[0]], short[1..], long[1..]);
    }
  }

  /** After an assignment, every shorter path on its way is free. */
  lemma {:induction false} WayIsFree(tree: Json, short: seq<string>, long: seq<string>, value: Json)
    requires short <= long && short != long && Assign(tree, long, value).Some?
    ensures Free(Assign(tree, long, value).value, short)
    decreases |short|
  {
    if short != [] {
      assert short[0] == long[0];
      WayIsFree(Child(tree, long[0]), short[1..], long[1..], value);
    }
  }

  lemma {:induction false} BuildTwo(a: Override, b: Override)
    ensures Build([a, b]) == Insert(Assign(Obj(map[]), a.path, a.value), b)
    ensures Assign(Obj(map[]), a.path, a.value).Some?
  {
    BuildLast([a], b);
    BuildLast([], a);
    assert [a] + [b] == [a, b] && [] + [a] == [a];
    FreeNothing(a.path);
    AssignSucceedsIff(Obj(map[]), a.path, a.value);
  }

  /** A path and a longer one: one order fails, the other overwrites. */
  lemma {:induction false} PrefixesClash(short: Override, long: Override)
    requires ProperOverride(short) && short.path <= long.path && short.path != long.path
    ensures Build([short, long]) == None && Build([long, short]).Some?
  {
    var nothing := Obj(map[]);
    BuildTwo(short, long);
    BuildTwo(long, short);
    var t, u := Assign(nothing, short.path, short.value).value, Assign(nothing, long.path, long.value).value;
    AssignReadsBack(nothing, short.path, short.value);
    ValueBlocks(t, short.path, long.path);
    AssignSucceedsIff(t, long.path, long.value);
    WayIsFree(nothing, short.path, long.path, long.value);
    AssignSucceedsIff(u, short.path, short.value);
  }

  lemma {:induction false} StillFree(tree: Json, path: seq<string>, value: Json)
    requires Assign(tree, path, value).Some?
    ensures Free(Assign(tree, path, value).value, path)
    decreases |path|
  {
    if path != [] {
      StillFree(Child(tree, path[0]), path[1..], value);
    }
  }

  // ---------- Orders that matter ----------

  predicate Shadows(short: seq<string>, long: seq<string>) {
    short <= long && short != long
  }

  /** A path is free in a built tree unless a plain value was put on its way. */
  lemma {:induction false} FreeUnlessShadowed(env: seq<Override>, q: seq<string>)
    requires Build(env).Some? && forall k :: 0 <= k < |env| ==> !Shadows(env[k].path, q)
    ensures Free(Build(env).value, q)
  {
    if env != [] && q != [] {
      var tree, o := Build(Init(env)).value, Last(env);
      FreeUnlessShadowed(Init(env), q);
      if o.path == q {
        StillFree(tree, q, o.value);
      } else if q <= o.path {
        WayIsFree(tree, q, o.path, o.value);
      } else {
        AssignLeavesUnrelated(tree, o.path, o.value, q);
      }
    }
  }

  lemma {:induction false} ShortestPath(env: seq<Override>) returns (i: nat)
    requires env != []
    ensures i < |env| && forall k :: 0 <= k < |env| ==> |env[i].path| <= |env[k].path|
  {
    if |env| == 1 {
      i := 0;
    } else {
      i := ShortestPath(Init(env));
      if |Last(env).path| < |env[i].path| {
        i := |env| - 1;
      }
    }
  }

  /** Some order builds a tree: longer paths before shorter ones. */
  lemma {:induction false} SomeOrderSucceeds(env: seq<Override>) returns (other: seq<Override>)
    ensures multiset(other) == multiset(env) && Build(other).Some?
  {
    if env == [] {
      other := [];
    } else {
      var i := ShortestPath(env);
      var rest := env[..i] + env[i + 1..];
      var most := SomeOrderSucceeds(rest);
      WithoutIndex(env, i);
      forall k | 0 <= k < |most| ensures !Shadows(most[k].path, env[i].path) {
        assert most[k] in multiset(rest);
      }
      FreeUnlessShadowed(most, env[i].path);
      AssignSucceedsIff(Build(most).value, env[i].path, env[i].value);
      BuildLast(most, env[i]);
      other := most + [env[i]];
    }
  }

  lemma {:induction false} FailureStays(first: seq<Override>, later: seq<Override>)
    requires Build(first).None?
    ensures Build(first + later).None?
  {
    if later == [] {
      assert first + later == first;
    } else {
      assert Init(first + later) == first + Init(later);
      FailureStays(first, Init(later));
    }
  }

  lemma {:induction false} TakeOne(env: seq<Override>, i: nat) returns (rest: seq<Override>)
    requires i < |env|
    ensures rest == env[..i] + env[i + 1..] && multiset(env) == multiset(rest) + multiset{env[i]}
  {
    rest := env[..i] + env[i + 1..];
    WithoutIndex(env, i);
    assert env[i] in multiset(env);
  }

  /** Two places of the environment, and the rest of it. */
  lemma {:induction false} TakeTwo(env: seq<Override>, i: nat, j: nat) returns (rest: seq<Override>)
    requires i < j < |env|
    ensures multiset(rest) + multiset{env[i], env[j]} == multiset(env)
  {
    var most := TakeOne(env, j);
    assert most[i] == env[i];
    rest := TakeOne(most, i);
    BagOfTwo(multiset(rest), env[i], env[j]);
  }

  lemma {:induction false} BagOfTwo(rest: multiset<Override>, a: Override, b: Override)
    ensures rest + multiset{a} + multiset{b} == rest + multiset{a, b}
  {
  }

  predicate Shadowed(env: seq<Override>) {
    exists i, j :: 0 <= i < |env| && 0 <= j < |env| && Shadows(env[i].path, env[j].path)
  }

  /** A path and a longer one among the overrides: one order fails and another succeeds. */
  lemma {:induction false} ShadowSplitsOrders(env: seq<Override>) returns (bad: seq<Override>, good: seq<Override>)
    requires Proper(env) && Shadowed(env)
    ensures multiset(bad) == multiset(env) == multiset(good) && Build(bad).None? && Build(good).Some?
  {
    var i, j :| 0 <= i < |env| && 0 <= j < |env| && Shadows(env[i].path, env[j].path);
    var short, long := env[i], env[j];
    var rest := TakeTwo(env, if i < j then i else j, if i < j then j else i);
    bad := [short, long] + rest;
    PrefixesClash(short, long);
    FailureStays([short, long], rest);
    good := SomeOrderSucceeds(env);
  }

  /** Two values for one path, with nothing on its way: the later one is read. */
  lemma {:induction false} LaterValueWins(env: seq<Override>, a: Override, b: Override)
    requires a.path == b.path && Build(env).Some? && forall k :: 0 <= k < |env| ==> !Shadows(env[k].path, a.path)
    ensures Build(env + [a, b]).Some? && Lookup(Build(env + [a, b]).value, b.path) == Some(b.value)
  {
    assert env + [a, b] == env + [a] + [b];
    BuildLast(env, a);
    BuildLast(env + [a], b);
    FreeUnlessShadowed(env, a.path);
    AssignSucceedsIff(Build(env).value, a.path, a.value);
    StillFree(Build(env).value, a.path, a.value);
    AssignSucceedsIff(Build(env + [a]).value, b.path, b.value);
    AssignReadsBack(Build(env + [a]).value, b.path, b.value);
  }

  /** Every order of the overrides builds a tree exactly when no path leads through another one's value. */
  lemma {:induction false} EveryOrderSucceedsIff(env: seq<Override>)
    requires Proper(env)
    ensures (forall other :: multiset(other) == multiset(env) ==> Build(other).Some?) <==> !Shadowed(env)
  {
    if Shadowed(env) {
      var bad, good := ShadowSplitsOrders(env);
    } else {
      forall other | multiset(other) == multiset(env) ensures Build(other).Some? {
        forall k | 0 <= k < |other| ensures other[k] in env {
          assert other[k] in multiset(other);
        }
        UnshadowedSucceeds(other);
      }
    }
  }

  lemma {:induction false} UnshadowedSucceeds(env: seq<Override>)
    requires !Shadowed(env)
    ensures Build(env).Some?
  {
    if env != [] {
      var most, o := Init(env), Last(env);
      assert !Shadowed(most) by {
        assert forall k :: 0 <= k < |most| ==> most[k] == env[k];
      }
      UnshadowedSucceeds(most);
      FreeUnlessShadowed(most, o.path);
      AssignSucceedsIff(Build(most).value, o.path, o.value);
    }
  }

  /** Two values for one path: each order of the two is read differently. */
  lemma {:induction false} RivalsSplitOrders(env: seq<Override>, a: Override, b: Override, rest: seq<Override>)
    returns (one: seq<Override>, two: seq<Override>)
    requires a.path == b.path && a.value != b.value && !Shadowed(env)
    requires multiset(rest) + multiset{a, b} == multiset(env)
    ensures multiset(one) == multiset(env) == multiset(two) && Build(one) != Build(two)
  {
    var good := SomeOrderSucceeds(rest);
    forall k | 0 <= k < |good| ensures !Shadows(good[k].path, a.path) {
      assert good[k] in multiset(rest) && a in multiset(env);
      NotShadowed(env, good[k], a);
    }
    LaterValueWins(good, a, b);
    LaterValueWins(good, b, a);
    one, two := good + [a, b], good + [b, a];
  }

  lemma {:induction false} NotShadowed(env: seq<Override>, o: Override, p: Override)
    requires !Shadowed(env) && o in multiset(env) && p in multiset(env)
    ensures !Shadows(o.path, p.path)
  {
    var i :| 0 <= i < |env| && env[i] == o;
    var j :| 0 <= j < |env| && env[j] == p;
  }

  /** Two overrides that do not agree: two orders of the environment build different trees, or only one builds any. */
  lemma {:induction false} DisagreementShows(env: seq<Override>, i: nat, j: nat)
    returns (one: seq<Override>, two: seq<Override>)
    requires Proper(env) && i < j < |env| && !Agree(env[i], env[j])
    ensures multiset(one) == multiset(env) == multiset(two) && Build(one) != Build(two)
  {
    if Shadowed(env) {
      one, two := ShadowSplitsOrders(env);
    } else {
      assert !Shadows(env[i].path, env[j].path) && !Shadows(env[j].path, env[i].path);
      var rest := TakeTwo(env, i, j);
      one, two := RivalsSplitOrders(env, env[i], env[j], rest);
    }
  }

  /** The order of the overrides is immaterial exactly when every two of them are equal or unrelated. */
  lemma {:induction false} OrderMattersIff(env: seq<Override>)
    requires Proper(env)
    ensures (forall other :: multiset(other) == multiset(env) ==> Build(other) == Build(env)) <==> Compatible(env)
  {
    if Compatible(env) {
      forall other | multiset(other) == multiset(env) ensures Build(other) == Build(env) {
        OrderDoesNotMatter(env, other);
      }
    } else {
      var i, j :| 0 <= i < j < |env| && !Agree(env[i], env[j]);
      var one, two := DisagreementShows(env, i, j);
    }
  }

  // ---------- Orders of the environment ----------

  function OverrideOf(v: Variable): seq<Override> {
    if ParseVariable(v).Some? then [ParseVariable(v).value] else []
  }

  lemma {:induction false} OverridesSplit(a: seq<Variable>, b: seq<Variable>)
    ensures Overrides(a + b) == Overrides(a) + Overrides(b)
  {
    if b == [] {
      assert a + b == a;
    } else {
      OverridesSplit(a, Init(b));
      assert Init(a + b) == a + Init(b);
      AppendAssociative(Overrides(a), Overrides(Init(b)), OverrideOf(Last(b)));
    }
  }

  /** One variable taken out takes out its override, if it has one. */
  lemma {:induction false} OverridesWithout(env: seq<Variable>, i: nat)
    requires i < |env|
    ensures multiset(Overrides(env)) == multiset(Overrides(env[..i] + env[i + 1..])) + multiset(OverrideOf(env[i]))
    ensures multiset(env) == multiset(env[..i] + env[i + 1..]) + multiset{env[i]}
  {
    var before, after := env[..i], env[i + 1..];
    assert env == before + [env[i]] + after;
    OverridesSplit(before + [env[i]], after);
    OverridesSplit(before, [env[i]]);
    OverridesSplit(before, after);
    assert Overrides([env[i]]) == OverrideOf(env[i]) by {
      assert Init([env[i]]) == [];
    }
  }

  lemma {:induction false} TakeVariable(env: seq<Variable>, v: Variable) returns (rest: seq<Variable>)
    requires v in multiset(env)
    ensures multiset(env) == multiset(rest) + multiset{v}
    ensures multiset(Overrides(env)) == multiset(Overrides(rest)) + multiset(OverrideOf(v))
  {
    var i :| 0 <= i < |env| && env[i] == v;
    rest := env[..i] + env[i + 1..];
    OverridesWithout(env, i);
  }

  lemma {:induction false} WithLast<T>(s: seq<T>)
    requires s != []
    ensures multiset(s) == multiset(Init(s)) + multiset{Last(s)}
  {
    assert s == Init(s) + [Last(s)];
  }

  lemma {:induction false} OverridesAppend(env: seq<Variable>, v: Variable)
    ensures Overrides(env + [v]) == Overrides(env) + OverrideOf(v)
  {
    assert Init(env + [v]) == env;
  }

  lemma {:induction false} Cancel<T>(a: multiset<T>, b: multiset<T>, m: multiset<T>)
    requires a + m == b + m
    ensures a == b
  {
    assert a == a + m - m && b == b + m - m;
  }

  lemma {:induction false} PermutedEnvironment(env: seq<Variable>, other: seq<Variable>)
    requires multiset(env) == multiset(other)
    ensures multiset(Overrides(env)) == multiset(Overrides(other))
    decreases |other|
  {
    if other == [] {
      EmptyBag(env);
    } else {
      var rest := SameLast(env, other);
      PermutedEnvironment(rest, Init(other));
      OverridesOfLast(other);
    }
  }

  lemma {:induction false} OverridesOfLast(env: seq<Variable>)
    requires env != []
    ensures multiset(Overrides(env)) == multiset(Overrides(Init(env))) + multiset(OverrideOf(Last(env)))
  {
    assert Init(env) + [Last(env)] == env;
    OverridesAppend(Init(env), Last(env));
    BagConcat(Overrides(Init(env)), OverrideOf(Last(env)));
  }

  lemma {:induction false} SameLast(env: seq<Variable>, other: seq<Variable>) returns (rest: seq<Variable>)
    requires multiset(env) == multiset(other) && other != []
    ensures multiset(rest) == multiset(Init(other))
    ensures multiset(Overrides(env)) == multiset(Overrides(rest)) + multiset(OverrideOf(Last(other)))
  {
    WithLast(other);
    rest := TakeVariable(env, Last(other));
    Cancel(multiset(rest), multiset(Init(other)), multiset{Last(other)});
  }

  /** The variable behind the last override, and the environment without it. */
  lemma {:induction false} SourceOfLast(env: seq<Variable>, wanted: seq<Override>) returns (v: Variable, rest: seq<Variable>)
    requires multiset(Overrides(env)) == multiset(wanted) && wanted != []
    ensures OverrideOf(v) == [Last(wanted)] && multiset(env) == multiset(rest) + multiset{v}
    ensures multiset(Overrides(rest)) == multiset(Init(wanted))
  {
    WithLast(wanted);
    v := SourceOf(env, Last(wanted));
    rest := TakeVariable(env, v);
    Cancel(multiset(Overrides(rest)), multiset(Init(wanted)), multiset{Last(wanted)});
  }

  /** Every order of the overrides comes from some order of the environment. */
  lemma {:induction false} OrderIsRealised(env: seq<Variable>, wanted: seq<Override>) returns (other: seq<Variable>)
    requires multiset(Overrides(env)) == multiset(wanted)
    ensures multiset(other) == multiset(env) && Overrides(other) == wanted
    decreases |wanted|
  {
    if wanted == [] {
      other := env;
      EmptyBag(Overrides(env));
    } else {
      var v, rest := SourceOfLast(env, wanted);
      var most := OrderIsRealised(rest, Init(wanted));
      other := PutBack(env, wanted, v, rest, most);
    }
  }

  lemma {:induction false} PutBack(env: seq<Variable>, wanted: seq<Override>, v: Variable, rest: seq<Variable>, most: seq<Variable>)
    returns (other: seq<Variable>)
    requires multiset(env) == multiset(rest) + multiset{v} && multiset(most) == multiset(rest)
    requires wanted != [] && Overrides(most) == Init(wanted) && OverrideOf(v) == [Last(wanted)]
    ensures multiset(other) == multiset(env) && Overrides(other) == wanted
  {
    other := most + [v];
    BagConcat(most, [v]);
    OverridesAppend(most, v);
    assert wanted == Init(wanted) + [Last(wanted)];
  }

  lemma {:induction false} BagConcat<T>(s: seq<T>, t: seq<T>)
    ensures multiset(s + t) == multiset(s) + multiset(t)
  {
  }

  lemma {:induction false} EmptyBag<T>(s: seq<T>)
    requires multiset(s) == multiset([])
    ensures s == []
  {
    assert |multiset(s)| == 0;
  }

  lemma {:induction false} SourceOf(env: seq<Variable>, o: Override) returns (v: Variable)
    requires o in multiset(Overrides(env))
    ensures v in multiset(env) && OverrideOf(v) == [o]
  {
    WithLast(env);
    if OverrideOf(Last(env)) == [o] {
      v := Last(env);
    } else {
      assert o in Overrides(Init(env));
      v := SourceOf(Init(env), o);
    }
  }

  /** The order in which the environment lists its variables is immaterial to the tree exactly when every two
      overrides are equal or unrelated. */
  lemma {:induction false} EnvironmentOrderMattersIff(env: seq<Variable>)
    ensures (forall other :: multiset(other) == multiset(env) ==> Build(Overrides(other)) == Build(Overrides(env)))
            <==> Compatible(Overrides(env))
  {
    OrderMattersIff(Overrides(env));
    if Compatible(Overrides(env)) {
      forall other | multiset(other) == multiset(env) ensures Build(Overrides(other)) == Build(Overrides(env)) {
        PermutedEnvironment(env, other);
      }
    } else {
      var wanted :| multiset(wanted) == multiset(Overrides(env)) && Build(wanted) != Build(Overrides(env));
      var other := OrderIsRealised(env, wanted);
    }
  }

  /** Among variables that name one path, the one listed last is read. */
  lemma {:induction false} LastVariableWins(env: seq<Variable>, v: Variable)
    requires ParseVariable(v).Some? && Build(Overrides(env + [v])).Some?
    ensures Lookup(Build(Overrides(env + [v])).value, ParseVariable(v).value.path) == Some(ParseVariable(v).value.value)
  {
    var o := ParseVariable(v).value;
    OverridesAppend(env, v);
    BuildLast(Overrides(env), o);
    AssignReadsBack(Build(Overrides(env)).value, o.path, o.value);
  }

  // ---------- What the merged configuration reads ----------

  /** The path leads nowhere, and meets no plain value. */
  predicate Misses(tree: Json, path: seq<string>) {
    tree.Obj? && path != [] && (path[0] in tree.fields ==> Misses(tree.fields[path[0]], path[1..]))
  }

  predicate UnrelatedToAll(p: seq<string>, env: seq<Override>) {
    forall k :: 0 <= k < |env| ==> Unrelated(p, env[k].path)
  }

  lemma {:induction false} CompatibleIsUnshadowed(env: seq<Override>)
    requires Compatible(env)
    ensures !Shadowed(env)
  {
    forall i, j | 0 <= i < |env| && 0 <= j < |env| ensures !Shadows(env[i].path, env[j].path) {
      if i < j {
        assert Agree(env[i], env[j]);
      } else if j < i {
        assert Agree(env[j], env[i]);
      }
    }
  }

  /** A built tree stays clear of every path unrelated to all of its own. */
  lemma {:induction false} BuildMisses(env: seq<Override>, p: seq<string>)
    requires Build(env).Some? && p != [] && UnrelatedToAll(p, env)
    ensures Misses(Build(env).value, p)
  {
    if env != [] {
      BuildMisses(Init(env), p);
      AssignLeavesUnrelated(Build(Init(env)).value, Last(env).path, Last(env).value, p);
    }
  }

  /** Each path reads its own value in the tree. */
  lemma {:induction false} BuildReadsBack(env: seq<Override>, k: nat)
    requires Compatible(env) && Build(env).Some? && k < |env|
    ensures Lookup(Build(env).value, env[k].path) == Some(env[k].value)
  {
    var rest, o := Init(env), Last(env);
    if o == env[k] {
      AssignReadsBack(Build(rest).value, o.path, o.value);
    } else {
      BuildReadsBack(rest, k);
      assert Agree(env[k], env[|env| - 1]);
      AssignLeavesUnrelated(Build(rest).value, o.path, o.value, env[k].path);
    }
  }

  lemma {:induction false} MergeTakesOverride(base: Json, override: Json, path: seq<string>)
    requires Lookup(override, path).Some? && !Lookup(override, path).value.Obj?
    ensures Lookup(Merge(base, override), path) == Lookup(override, path)
    decreases |path|
  {
    if path != [] && base.Obj? && path[0] in base.fields {
      MergeTakesOverride(base.fields[path[0]], override.fields[path[0]], path[1..]);
    }
  }

  lemma {:induction false} MergeKeepsBase(base: Json, override: Json, path: seq<string>)
    requires Misses(override, path)
    ensures Lookup(Merge(base, override), path) == Lookup(base, path)
    decreases |path|
  {
    if path[0] in override.fields {
      if base.Obj? && path[0] in base.fields {
        MergeKeepsBase(base.fields[path[0]], override.fields[path[0]], path[1..]);
      } else {
        MissedIsAbsent(override, path);
      }
    }
  }

  lemma {:induction false} MissedIsAbsent(tree: Json, path: seq<string>)
    requires Misses(tree, path)
    ensures Lookup(tree, path) == None
    decreases |path|
  {
    if path[0] in tree.fields {
      MissedIsAbsent(tree.fields[path[0]], path[1..]);
    }
  }

  lemma {:induction false} MergeSelf(tree: Json)
    ensures Merge(tree, tree) == tree
    decreases tree
  {
    if tree.Obj? {
      forall k | k in tree.fields ensures Merge(tree.fields[k], tree.fields[k]) == tree.fields[k] {
        MergeSelf(tree.fields[k]);
      }
      assert Merge(tree, tree).fields == tree.fields;
    }
  }

  /** Merging the same overrides again changes nothing, whatever the trees. */
  lemma {:induction false} MergeIsIdempotent(base: Json, override: Json)
    ensures Merge(Merge(base, override), override) == Merge(base, override)
    decreases override
  {
    if base.Obj? && override.Obj? {
      var once := Merge(base, override).fields;
      forall k | k in override.fields ensures Merge(once[k], override.fields[k]) == once[k] {
        if k in base.fields {
          MergeIsIdempotent(base.fields[k], override.fields[k]);
        } else {
          MergeSelf(override.fields[k]);
        }
      }
      assert Merge(Obj(once), override).fields == once;
    } else {
      MergeSelf(override);
    }
  }

  /** For compatible overrides over any file: the tree is the same in every order, each override path reads its
      value, and a path unrelated to all of them reads what the file says. */
  lemma {:induction false} LoadedConfig(file: Fields, env: seq<Override>, other: seq<Override>, p: seq<string>)
    requires Compatible(env) && Proper(env) && multiset(env) == multiset(other)
    requires p != [] && UnrelatedToAll(p, env)
    ensures Build(env).Some? && Build(other) == Build(env)
    ensures var loaded := Merge(Obj(file), Build(env).value);
            && (forall k :: 0 <= k < |env| ==> Lookup(loaded, env[k].path) == Some(env[k].value))
            && Lookup(loaded, p) == Lookup(Obj(file), p)
            && Merge(loaded, Build(env).value) == loaded
  {
    OrderDoesNotMatter(env, other);
    CompatibleIsUnshadowed(env);
    UnshadowedSucceeds(env);
    var tree := Build(env).value;
    forall k | 0 <= k < |env| ensures Lookup(Merge(Obj(file), tree), env[k].path) == Some(env[k].value) {
      BuildReadsBack(env, k);
      MergeTakesOverride(Obj(file), tree, env[k].path);
    }
    BuildMisses(env, p);
    MergeKeepsBase(Obj(file), tree, p);
    MergeIsIdempotent(Obj(file), tree);
  }

  // ---------- Names of variables ----------

  /** The parts put back together. */
  function Joined(parts: seq<string>): string
    requires parts != []
  {
    if |parts| == 1 then parts[0] else parts[0] + "__" + Joined(parts[1..])
  }

  predicate HasDelimiter(s: string) {
    exists k :: 0 <= k < |s| - 1 && s[k] == '_' && s[k + 1] == '_'
  }

  /** No part holds a delimiter, and none but the last ends in an underscore. */
  predicate Separable(parts: seq<string>) {
    && (forall i :: 0 <= i < |parts| ==> !HasDelimiter(parts[i]))
    && (forall i :: 0 <= i < |parts| - 1 ==> parts[i] == "" || Last(parts[i]) != '_')
  }

  /** Splitting loses nothing, and leaves no delimiter behind. */
  lemma {:induction false} JoinedSplit(s: string)
    ensures Joined(Split(s)) == s && Separable(Split(s))
  {
    if |s| >= 2 && s[..2] == "__" {
      JoinedSplit(s[2..]);
      assert Split(s)[1..] == Split(s[2..]);
      PutInFront("", Split(s[2..]));
      assert s == "" + "__" + s[2..];
    } else if |s| >= 2 {
      var rest := Split(s[1..]);
      JoinedSplit(s[1..]);
      assert s[1..][0] == s[1];
      SplitStart(s[1..]);
      Extended(s[0], rest);
      assert s == [s[0]] + s[1..];
    }
  }

  lemma {:induction false} PutInFront(part: string, parts: seq<string>)
    requires parts != [] && Separable(parts) && !HasDelimiter(part) && (part == "" || Last(part) != '_')
    ensures Separable([part] + parts) && Joined([part] + parts) == part + "__" + Joined(parts)
  {
    assert ([part] + parts)[1..] == parts;
  }

  /** What a split starts with: its first character, unless it starts with a delimiter. */
  lemma {:induction false} SplitStart(s: string)
    requires s != ""
    ensures if |s| >= 2 && s[..2] == "__" then Split(s)[0] == "" && |Split(s)| > 1
            else Split(s)[0] != "" && Split(s)[0][0] == s[0]
  {
  }

  lemma {:induction false} Extended(c: char, parts: seq<string>)
    requires parts != [] && Separable(parts)
    requires c == '_' ==> if parts[0] == "" then |parts| == 1 else parts[0][0] != '_'
    ensures Separable([[c] + parts[0]] + parts[1..]) && Joined([[c] + parts[0]] + parts[1..]) == [c] + Joined(parts)
  {
    var first := [c] + parts[0];
    assert ([first] + parts[1..])[1..] == parts[1..];
    assert !HasDelimiter(first) by {
      assert forall k :: 1 <= k < |first| ==> first[k] == parts[0][k - 1];
    }
    if |parts| > 1 {
      assert [c] + (parts[0] + "__" + Joined(parts[1..])) == first + "__" + Joined(parts[1..]);
    }
  }

  /** Exactly the separable paths have a name that splits into them. */
  lemma {:induction false} NameSplitsIff(parts: seq<string>)
    requires parts != []
    ensures Split(Joined(parts)) == parts <==> Separable(parts)
  {
    if Separable(parts) {
      SplitJoined(parts);
    }
    JoinedSplit(Joined(parts));
  }

  lemma {:induction false} SplitJoined(parts: seq<string>)
    requires parts != [] && Separable(parts)
    ensures Split(Joined(parts)) == parts
    decreases |parts|, |parts[0]|
  {
    var first, whole := parts[0], Joined(parts);
    if first != "" {
      var cut := [first[1..]] + parts[1..];
      CutFirst(parts, cut);
      SplitJoined(cut);
      if |whole| >= 2 {
        assert whole[1..] == Joined(cut);
        assert [first[0]] + cut[0] == first;
        assert [first] + cut[1..] == parts;
      }
    } else if |parts| > 1 {
      assert Separable(parts[1..]);
      SplitJoined(parts[1..]);
      assert whole[..2] == "__" && whole[2..] == Joined(parts[1..]);
      assert [""] + parts[1..] == parts;
    }
  }

  lemma {:induction false} CutFirst(parts: seq<string>, cut: seq<string>)
    requires parts != [] && Separable(parts) && parts[0] != "" && cut == [parts[0][1..]] + parts[1..]
    ensures Separable(cut) && Joined(parts) == [parts[0][0]] + Joined(cut)
    ensures |Joined(parts)| >= 2 ==> Joined(parts)[..2] != "__"
    ensures |Joined(parts)| < 2 ==> |parts| == 1
  {
    var first := parts[0];
    assert cut[1..] == parts[1..];
    assert !HasDelimiter(cut[0]) by {
      assert forall k :: 0 <= k < |cut[0]| ==> cut[0][k] == first[k + 1];
    }
    assert [first[0]] + cut[0] == first;
    if |parts| > 1 {
      var rest := "__" + Joined(parts[1..]);
      AppendAssociative([first[0]], cut[0], rest);
      AppendAssociative(first, "__", Joined(parts[1..]));
      AppendAssociative(cut[0], "__", Joined(parts[1..]));
      StartsPlain(first, rest);
    } else {
      StartsPlain(first, "");
      assert first + "" == first;
    }
  }

  lemma {:induction false} StartsPlain(first: string, rest: string)
    requires first != "" && !HasDelimiter(first) && (rest == "" || Last(first) != '_')
    ensures |first + rest| >= 2 ==> (first + rest)[..2] != "__"
  {
    if |first + rest| >= 2 {
      var start := (first + rest)[..2];
      assert start[0] == first[0];
      assert |first| >= 2 ==> start[1] == first[1] && (first[0] != '_' || first[1] != '_');
    }
  }
}
