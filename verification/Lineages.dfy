/** Facts about stored turns and their lineages, and how the walk over the table follows them. */
module Lineages {
  import opened JsonValues
  import opened Store
  import opened Resolver
  import opened Recorder
  import opened Protocol
  import opened Invariants

  // ---------- Growing ----------

  lemma {:induction false} TurnsStay(a: Env, b: Env, turns: seq<Turn>)
    requires TurnsOk(a, turns) && EnvGrows(a, b)
    ensures TurnsOk(b, turns)
  {
    if turns != [] {
      TurnsStay(a, b, Init(turns));
    }
  }

  lemma {:induction false} PrefixOk(env: Env, past: seq<Turn>, turns: seq<Turn>)
    requires TurnsOk(env, turns) && past <= turns
    ensures TurnsOk(env, past)
  {
    if past != turns {
      assert past <= Init(turns);
      PrefixOk(env, past, Init(turns));
    }
  }

  lemma {:induction false} FindExtends(env: Env, past: seq<Turn>, turns: seq<Turn>, id: string)
    requires TurnsOk(env, turns) && past <= turns && Find(past, id).Some?
    ensures Find(turns, id) == Find(past, id)
  {
    if past != turns {
      assert past <= Init(turns);
      FindExtends(env, past, Init(turns), id);
    }
  }

  lemma {:induction false} FindIn(turns: seq<Turn>, id: string)
    ensures Find(turns, id).Some? ==> Find(turns, id).value in turns
    ensures Find(turns, id).None? ==> forall t :: t in turns ==> t.row.id != id
  {
    if turns != [] {
      FindIn(Init(turns), id);
      assert forall t :: t in turns <==> t in Init(turns) || t == Last(turns);
    }
  }

  lemma {:induction false} StoredIsFound(env: Env, turns: seq<Turn>, t: Turn)
    requires TurnsOk(env, turns) && t in turns
    ensures Find(turns, t.row.id) == Some(t)
  {
    if t != Last(turns) {
      assert t in Init(turns);
      StoredIsFound(env, Init(turns), t);
    }
  }

  /** A stored turn's row fits the turns, all of them, it was stored after. */
  lemma {:induction false} StoredFits(env: Env, turns: seq<Turn>, t: Turn)
    requires TurnsOk(env, turns) && t in turns
    ensures RowFits(env, turns, t.row) && Kept(t.row, t.request, t.response, env.cold)
  {
    var rest := Init(turns);
    if t != Last(turns) {
      assert t in rest;
      StoredFits(env, rest, t);
    }
    if t.row.parent.Some? {
      FindExtends(env, rest, turns, t.row.parent.value);
    }
  }

  // ---------- Lineages ----------

  /** `l` runs from a turn through its parents to a root. */
  predicate IsLineage(l: seq<Turn>) {
    && (forall k :: 0 < k < |l| ==> l[k - 1].row.parent == Some(l[k].row.id) && Descends(l[k].row, l[k - 1].row))
    && (l != [] ==> Last(l).row.parent == None)
    && (forall i, j :: 0 <= i < j < |l| ==> l[i].row.id != l[j].row.id)
  }

  lemma {:induction false} LineageFacts(env: Env, turns: seq<Turn>, id: string)
    requires TurnsOk(env, turns) && Find(turns, id).Some?
    ensures var l := Lineage(turns, Some(id));
            && l != [] && Some(l[0]) == Find(turns, id) && IsLineage(l)
            && forall k :: 0 <= k < |l| ==> Find(turns, l[k].row.id) == Some(l[k])
  {
    var rest, last := Init(turns), Last(turns);
    if last.row.id != id {
      LineageFacts(env, rest, id);
      LineageFound(env, turns, Lineage(rest, Some(id)));
    } else if last.row.parent.Some? {
      var above := Lineage(rest, last.row.parent);
      LineageFacts(env, rest, last.row.parent.value);
      LineageFound(env, turns, above);
      assert Lineage(turns, Some(id)) == [last] + above;
    } else {
      NoLineage(rest);
      assert Lineage(turns, Some(id)) == [last];
    }
  }

  lemma {:induction false} NoLineage(turns: seq<Turn>)
    ensures Lineage(turns, None) == []
  {
    if turns != [] {
      NoLineage(Init(turns));
    }
  }

  /** Turns found before the last one was stored are found after it, and are not it. */
  lemma {:induction false} LineageFound(env: Env, turns: seq<Turn>, l: seq<Turn>)
    requires turns != [] && TurnsOk(env, turns)
    requires forall k :: 0 <= k < |l| ==> Find(Init(turns), l[k].row.id) == Some(l[k])
    ensures forall k :: 0 <= k < |l| ==> Find(turns, l[k].row.id) == Some(l[k]) && l[k].row.id != Last(turns).row.id
  {
  }

  /** Later turns do not change a lineage. */
  lemma {:induction false} LineageExtends(env: Env, past: seq<Turn>, turns: seq<Turn>, id: string)
    requires TurnsOk(env, turns) && past <= turns && Find(past, id).Some?
    ensures Lineage(turns, Some(id)) == Lineage(past, Some(id))
  {
    if past != turns {
      assert past <= Init(turns);
      LineageExtends(env, past, Init(turns), id);
      FindExtends(env, past, Init(turns), id);
    }
  }

  // ---------- The walk follows the lineage ----------

  /** The newest part of the lineage that is still in the table. */
  function Present(l: seq<Turn>, table: Table): (r: seq<Turn>)
    ensures r <= l
    ensures forall t :: t in r ==> t.row.id in table
    ensures |r| < |l| ==> l[|r|].row.id !in table
  {
    if l == [] || l[0].row.id !in table then [] else [l[0]] + Present(l[1..], table)
  }

  predicate Agrees(turns: seq<Turn>, table: Table) {
    forall id :: id in table && Find(turns, id).Some? ==> table[id] == Find(turns, id).value.row
  }

  lemma {:induction false} LineageTail(l: seq<Turn>)
    requires IsLineage(l) && |l| > 1
    ensures IsLineage(l[1..]) && l[0].row.parent == Some(l[1].row.id)
    ensures forall k :: 1 <= k < |l| ==> l[k].row.id != l[0].row.id
  {
  }

  lemma {:induction false} RowsCons(t: Turn, ts: seq<Turn>)
    ensures Rows([t] + ts) == [t.row] + Rows(ts)
  {
  }

  /** `table` holds, of the lineage, only its own rows. */
  predicate OwnRows(l: seq<Turn>, table: Table) {
    forall k :: 0 <= k < |l| ==> l[k].row.id != "" && (l[k].row.id in table ==> table[l[k].row.id] == l[k].row)
  }

  /** The walk, wherever it starts, follows the lineage as long as that is in the table, and is never stopped by
      its guard against revisiting. */
  lemma {:induction false} TrailIsPresent(l: seq<Turn>, table: Table, id: string, visited: set<string>)
    requires l != [] && l[0].row.id == id && IsLineage(l) && OwnRows(l, table)
    requires forall k :: 0 <= k < |l| ==> l[k].row.id !in visited
    ensures Trail(table, Some(id), visited) == Rows(Present(l, table))
  {
    if id !in table {
      assert Present(l, table) == [];
    } else {
      var seen, parent := visited + {id}, l[0].row.parent;
      assert Trail(table, Some(id), visited) == [l[0].row] + Trail(table, parent, seen);
      assert Trail(table, parent, seen) == Rows(Present(l[1..], table)) by {
        if |l| > 1 {
          LineageTail(l);
          assert OwnRows(l[1..], table);
          TrailIsPresent(l[1..], table, l[1].row.id, seen);
        }
      }
      RowsCons(l[0], Present(l[1..], table));
    }
  }

  lemma {:induction false} IdsNonEmpty(env: Env, turns: seq<Turn>, t: Turn)
    requires TurnsOk(env, turns) && t in turns
    ensures t.row.id != ""
  {
    StoredFits(env, turns, t);
  }

  /** On the table of a good state, the walk from a stored turn is the part of its lineage still present. */
  lemma {:induction false} WalkFollowsLineage(env: Env, turns: seq<Turn>, table: Table, id: string)
    requires TurnsOk(env, turns) && Agrees(turns, table) && Find(turns, id).Some?
    ensures Trail(table, Some(id), {}) == Rows(Present(Lineage(turns, Some(id)), table))
  {
    var l := Lineage(turns, Some(id));
    LineageFacts(env, turns, id);
    forall k | 0 <= k < |l| ensures l[k].row.id != "" {
      FindIn(turns, l[k].row.id);
      IdsNonEmpty(env, turns, l[k]);
    }
    TrailIsPresent(l, table, id, {});
  }

  // ---------- Messages of stored turns ----------

  lemma {:induction false} LineageKept(env: Env, turns: seq<Turn>, id: string)
    requires TurnsOk(env, turns) && Find(turns, id).Some?
    ensures var l := Lineage(turns, Some(id));
            forall k :: 0 <= k < |l| ==> Kept(l[k].row, l[k].request, l[k].response, env.cold)
  {
    var l := Lineage(turns, Some(id));
    LineageFacts(env, turns, id);
    forall k | 0 <= k < |l| ensures Kept(l[k].row, l[k].request, l[k].response, env.cold) {
      FindIn(turns, l[k].row.id);
      StoredFits(env, turns, l[k]);
    }
  }

  /** The messages rebuilt from a stored row are its turn's contribution. */
  lemma {:induction false} RowMessagesAreContribution(t: Turn, cold: Option<ColdMap>)
    requires Kept(t.row, t.request, t.response, cold)
    ensures RowMessages(t.row, cold) == Contribution(t)
  {
    if t.row.coldKey == None {
      assert GetOr(Payload(t.row, cold, "input").value, "input", Arr([])) == GetOr(t.request, "input", Arr([]));
      assert GetOr(Payload(t.row, cold, "output").value, "output", Arr([])) == GetOr(t.response, "output", Arr([]));
    } else {
      assert GetOr(Payload(t.row, cold, "input").value, "input", Arr([])) == Obj(t.request);
      assert GetOr(Payload(t.row, cold, "output").value, "output", Arr([])) == Obj(t.response);
      assert WithoutSystem([Obj(t.request)]) + [] == WithoutSystem([Obj(t.request)]);
    }
  }

  lemma {:induction false} ReconstructIsConversation(turns: seq<Turn>, cold: Option<ColdMap>)
    requires forall k :: 0 <= k < |turns| ==> Kept(turns[k].row, turns[k].request, turns[k].response, cold)
    ensures Reconstruct(Rows(turns), cold) == Conversation(turns)
  {
    if turns != [] {
      ReconstructIsConversation(Init(turns), cold);
      RowMessagesAreContribution(Last(turns), cold);
      assert Init(Rows(turns)) == Rows(Init(turns)) && Last(Rows(turns)) == Last(turns).row;
    }
  }
}
