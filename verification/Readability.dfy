/** In every run, only the requested turn itself can be unreadable: each stored turn's ancestors were read to answer it. */
module Readability {
  import opened JsonValues
  import opened Store
  import opened Resolver
  import opened Recorder
  import opened Protocol
  import opened Invariants
  import opened Lineages
  import opened Preservation
  import opened SessionTheorems
  import opened Conversations

  // ---------- The invariant ----------

  /** Every ancestor still in the table, from `parent` upwards, can be rebuilt. */
  predicate AncestorsRead(turns: seq<Turn>, table: Table, parent: Option<string>) {
    var l := Lineage(turns, parent);
    forall k :: 0 <= k < |l| && l[k].row.id in table ==> Contribution(l[k]).Ok?
  }

  predicate Pending(f: Flight) {
    f.phase.Saving? || f.phase.Inserting?
  }

  /** So for the ancestors of each stored turn, and of each turn about to be stored. */
  ghost predicate ReadInv(s: Sys) {
    && (forall t :: t in s.turns ==> AncestorsRead(s.turns, s.table, t.row.parent))
    && (forall id :: id in s.flights && Pending(s.flights[id]) ==>
          AncestorsRead(s.turns, s.table, s.flights[id].phase.row.parent))
  }

  // ---------- What a step changes ----------

  lemma {:induction false} AncestorsStay(env: Env, turns: seq<Turn>, turns': seq<Turn>, before: Table, after: Table, parent: Option<string>)
    requires TurnsOk(env, turns) && TurnsOk(env, turns') && turns <= turns' && NoneBack(turns, before, after)
    requires parent.Some? ==> Find(turns, parent.value).Some?
    requires AncestorsRead(turns, before, parent)
    ensures AncestorsRead(turns', after, parent)
  {
    if parent.Some? {
      LineageExtends(env, turns, turns', parent.value);
      LineageFacts(env, turns, parent.value);
    } else {
      NoLineage(turns);
      NoLineage(turns');
    }
  }

  /** Steps append turns, and bring back no row. */
  lemma {:induction false} StepGrows(s: Sys, a: Action)
    requires Inv(s)
    ensures s.turns <= Step(s, a).turns && NoneBack(s.turns, s.table, Step(s, a).table)
  {
    if a.Insert? && Enabled(s, a) {
      assert FlightOk(EnvOf(s), s.turns, s.table, a.id, s.flights[a.id]);
    } else if !a.Cleanup? {
      OnlyInsertAndCleanupTouchTable(s, a);
    }
  }

  lemma {:induction false} NewTurnWasPending(s: Sys, a: Action, t: Turn)
    requires Inv(s) && t in Step(s, a).turns && t !in s.turns
    ensures a.Insert? && a.id in s.flights && Pending(s.flights[a.id]) && s.flights[a.id].phase.row == t.row
  {
    if a.Insert? && Enabled(s, a) {
      var f := s.flights[a.id];
      var added := InsertStep(s, a.id).turns;
      assert added == s.turns || added == s.turns + [Turn(f.phase.row, f.request, f.phase.response)];
    } else if !a.Cleanup? {
      OnlyInsertAndCleanupTouchTable(s, a);
    }
  }

  /** A row pending in `s'` was pending in `s` with the same parent, or its request has just been answered. */
  predicate PendingFrom(s: Sys, s': Sys, id: string) {
    id in s'.flights && Pending(s'.flights[id]) ==>
      id in s.flights &&
      var parent := s'.flights[id].phase.row.parent;
      || (Pending(s.flights[id]) && parent == s.flights[id].phase.row.parent)
      || (s.flights[id].phase.Calling? && parent == s.flights[id].phase.resolved.parentId)
  }

  lemma {:induction false} ResolvingPending(s: Sys, x: string, id: string)
    requires x in s.flights
    ensures PendingFrom(s, FetchParentStep(s, x), id)
  {
  }

  lemma {:induction false} WalkingPending(s: Sys, x: string, id: string)
    requires x in s.flights && s.flights[x].phase.Walking?
    ensures More(s.flights[x].phase) ==> PendingFrom(s, LookupStep(s, x), id)
  {
  }

  lemma {:induction false} EndingPending(s: Sys, x: string, id: string)
    requires x in s.flights && s.flights[x].phase.Walking?
    ensures PendingFrom(s, EndWalkStep(s, x), id)
  {
  }

  lemma {:induction false} RespondingPending(s: Sys, x: string, response: Fields, session: string, id: string)
    requires x in s.flights && s.flights[x].phase.Calling?
    ensures PendingFrom(s, RespondStep(s, x, response, session), id)
  {
  }

  lemma {:induction false} InsertingPending(s: Sys, x: string, id: string)
    requires x in s.flights && s.flights[x].phase.Inserting?
    ensures PendingFrom(s, InsertStep(s, x), id)
  {
  }

  lemma {:induction false} PendingComesFrom(s: Sys, a: Action, id: string)
    ensures PendingFrom(s, Step(s, a), id)
  {
    if Enabled(s, a) {
      match a
      case FetchParent(x) => ResolvingPending(s, x, id);
      case Lookup(x) => WalkingPending(s, x, id);
      case EndWalk(x) => EndingPending(s, x, id);
      case Respond(x, response, session) => RespondingPending(s, x, response, session, id);
      case Insert(x) => InsertingPending(s, x, id);
      case _ =>
    }
  }

  // ---------- An answered request has read its ancestors ----------

  lemma {:induction false} EachContributes(turns: seq<Turn>, k: nat)
    requires Conversation(turns).Ok? && k < |turns|
    ensures Contribution(turns[k]).Ok?
  {
    if k < |turns| - 1 {
      EachContributes(Init(turns), k);
    }
  }

  lemma {:induction false} UsedOrGone(e: Sys, l: seq<Turn>, used: nat, k: nat)
    requires Closed(e.turns, e.table) && IsLineage(l) && used <= |l| && Conversation(Reverse(l[..used])).Ok?
    requires forall i :: 0 <= i < |l| ==> l[i] in e.turns
    requires used < |l| ==> l[used].row.id !in e.table
    requires k < |l| && l[k].row.id in e.table
    ensures Contribution(l[k]).Ok?
  {
    if k < used {
      EachContributes(Reverse(l[..used]), used - 1 - k);
    } else {
      ClosedDownwards(e, l, used, k);
    }
  }

  /** What the request built on was rebuilt for it; the rest of its ancestors is gone. */
  lemma {:induction false} AnsweredHasRead(s: Sys, id: string)
    requires Inv(s) && id in s.flights && s.flights[id].phase.Calling?
    ensures AncestorsRead(s.turns, s.table, s.flights[id].phase.resolved.parentId)
  {
    var p := s.flights[id].phase;
    assert FlightOk(EnvOf(s), s.turns, s.table, id, s.flights[id]);
    if p.resolved.parentId.Some? {
      var parent := p.resolved.parentId.value;
      var l := Lineage(s.turns, Some(parent));
      LineageExtends(EnvOf(s), p.past, s.turns, parent);
      FindExtends(EnvOf(s), p.past, s.turns, parent);
      LineageFacts(EnvOf(s), s.turns, parent);
      LineageMembers(EnvOf(s), s.turns, parent);
      forall k | 0 <= k < |l| && l[k].row.id in s.table ensures Contribution(l[k]).Ok? {
        UsedOrGone(s, l, p.used, k);
      }
    } else {
      NoLineage(s.turns);
    }
  }

  // ---------- Every step, every run ----------

  lemma {:induction false} TurnsKeepRead(s: Sys, a: Action, t: Turn)
    requires Inv(s) && ReadInv(s) && Inv(Step(s, a)) && t in Step(s, a).turns
    ensures AncestorsRead(Step(s, a).turns, Step(s, a).table, t.row.parent)
  {
    var s' := Step(s, a);
    StepGrows(s, a);
    PrefixOk(EnvOf(s'), s.turns, s'.turns);
    if t in s.turns {
      StoredFits(EnvOf(s), s.turns, t);
    } else {
      NewTurnWasPending(s, a, t);
      assert FlightOk(EnvOf(s), s.turns, s.table, a.id, s.flights[a.id]);
    }
    AncestorsStay(EnvOf(s'), s.turns, s'.turns, s.table, s'.table, t.row.parent);
  }

  lemma {:induction false} PendingKeepsRead(s: Sys, a: Action, id: string)
    requires Inv(s) && ReadInv(s) && Inv(Step(s, a)) && id in Step(s, a).flights && Pending(Step(s, a).flights[id])
    ensures AncestorsRead(Step(s, a).turns, Step(s, a).table, Step(s, a).flights[id].phase.row.parent)
  {
    var s' := Step(s, a);
    var parent := s'.flights[id].phase.row.parent;
    StepGrows(s, a);
    PrefixOk(EnvOf(s'), s.turns, s'.turns);
    PendingComesFrom(s, a, id);
    assert FlightOk(EnvOf(s), s.turns, s.table, id, s.flights[id]);
    if s.flights[id].phase.Calling? {
      AnsweredHasRead(s, id);
      if parent.Some? {
        FindExtends(EnvOf(s), s.flights[id].phase.past, s.turns, parent.value);
      }
    }
    AncestorsStay(EnvOf(s'), s.turns, s'.turns, s.table, s'.table, parent);
  }

  lemma {:induction false} StepKeepsRead(s: Sys, a: Action)
    requires Inv(s) && ReadInv(s)
    ensures ReadInv(Step(s, a))
  {
    StepKeeps(s, a);
    forall t | t in Step(s, a).turns ensures AncestorsRead(Step(s, a).turns, Step(s, a).table, t.row.parent) {
      TurnsKeepRead(s, a, t);
    }
    forall id | id in Step(s, a).flights && Pending(Step(s, a).flights[id])
      ensures AncestorsRead(Step(s, a).turns, Step(s, a).table, Step(s, a).flights[id].phase.row.parent)
    {
      PendingKeepsRead(s, a, id);
    }
  }

  lemma {:induction false} RunKeepsRead(s: Sys, run: seq<Action>)
    requires Initial(s)
    ensures Inv(Run(s, run)) && ReadInv(Run(s, run))
  {
    RunKeeps(s, run);
    if run != [] {
      RunKeepsRead(s, Init(run));
      StepKeepsRead(Run(s, Init(run)), Last(run));
    }
  }

  // ---------- What this means for requests ----------

  lemma {:induction false} AncestorRowReads(env: Env, turns: seq<Turn>, table: Table, parent: Option<string>, t: Turn, j: nat)
    requires TurnsOk(env, turns) && AncestorsRead(turns, table, parent)
    requires j < |Lineage(turns, parent)| && Lineage(turns, parent)[j] == t && t in turns && t.row.id in table
    ensures CanRead(t.row, env.cold)
  {
    StoredFits(env, turns, t);
    RowMessagesAreContribution(t, env.cold);
  }

  /** The walk from a row goes through its lineage: itself, then its parent's. */
  lemma {:induction false} WalkedLineage(env: Env, turns: seq<Turn>, table: Table, id: string)
    requires TurnsOk(env, turns) && TableOk(turns, table) && id in table
    ensures ParentChain(table, id) == Reverse(Rows(Present(Lineage(turns, Some(id)), table)))
  {
    var l := ChainIsLineage(env, turns, table, id);
  }

  lemma {:induction false} LineageMember(env: Env, turns: seq<Turn>, table: Table, id: string, j: nat)
    requires TurnsOk(env, turns) && TableOk(turns, table) && id in table && 0 < j < |Lineage(turns, Some(id))|
    ensures var above := Lineage(turns, table[id].parent);
            j - 1 < |above| && above[j - 1] == Lineage(turns, Some(id))[j] && above[j - 1] in turns
  {
    var l := ChainIsLineage(env, turns, table, id);
    LineageStep(env, turns, l[0]);
    assert Find(turns, id) == Some(l[0]) by {
      LineageFacts(env, turns, id);
    }
  }

  lemma {:induction false} ChainRow(l: seq<Turn>, table: Table, chain: seq<Row>, k: nat)
    requires chain == Reverse(Rows(Present(l, table))) && k < |chain| - 1
    ensures var j := |chain| - 1 - k;
            0 < j < |l| && chain[k] == l[j].row && l[j].row.id in table
  {
    var present, j := Present(l, table), |chain| - 1 - k;
    assert present[j] in present;
  }

  lemma {:induction false} WalkedRowReads(env: Env, turns: seq<Turn>, table: Table, id: string, k: nat)
    requires TurnsOk(env, turns) && TableOk(turns, table) && id in table
    requires AncestorsRead(turns, table, table[id].parent) && k < |ParentChain(table, id)| - 1
    ensures CanRead(ParentChain(table, id)[k], env.cold)
  {
    var j, t := WalkedAncestor(env, turns, table, id, k);
    AncestorRowReads(env, turns, table, table[id].parent, t, j);
  }

  /** The ancestor behind a row of the walk. */
  lemma {:induction false} WalkedAncestor(env: Env, turns: seq<Turn>, table: Table, id: string, k: nat) returns (j: nat, t: Turn)
    requires TurnsOk(env, turns) && TableOk(turns, table) && id in table && k < |ParentChain(table, id)| - 1
    ensures j < |Lineage(turns, table[id].parent)| && Lineage(turns, table[id].parent)[j] == t
    ensures ParentChain(table, id)[k] == t.row && t in turns && t.row.id in table
  {
    var at := WalkedTurn(env, turns, table, id, k);
    LineageMember(env, turns, table, id, at);
    j, t := at - 1, Lineage(turns, Some(id))[at];
  }

  lemma {:induction false} WalkedTurn(env: Env, turns: seq<Turn>, table: Table, id: string, k: nat) returns (j: nat)
    requires TurnsOk(env, turns) && TableOk(turns, table) && id in table && k < |ParentChain(table, id)| - 1
    ensures 0 < j < |Lineage(turns, Some(id))|
    ensures ParentChain(table, id)[k] == Lineage(turns, Some(id))[j].row && Lineage(turns, Some(id))[j].row.id in table
  {
    j := |ParentChain(table, id)| - 1 - k;
    WalkedLineage(env, turns, table, id);
    ChainRow(Lineage(turns, Some(id)), table, ParentChain(table, id), k);
  }

  lemma {:induction false} WalkedAncestorsRead(e: Sys, id: string)
    requires Inv(e) && ReadInv(e) && id in e.table && ParentChain(e.table, id) != []
    ensures Readable(Init(ParentChain(e.table, id)), ColdOf(e))
  {
    var older := Init(ParentChain(e.table, id));
    FindIn(e.turns, id);
    assert AncestorsRead(e.turns, e.table, e.table[id].parent);
    forall k | 0 <= k < |older| ensures CanRead(older[k], ColdOf(e)) {
      WalkedRowReads(EnvOf(e), e.turns, e.table, id, k);
    }
  }

  lemma {:induction false} ChainEndsAtRequested(e: Sys, id: string)
    requires Inv(e) && id in e.table
    ensures ParentChain(e.table, id) != [] && Last(ParentChain(e.table, id)) == e.table[id]
  {
    var l := ChainIsLineage(EnvOf(e), e.turns, e.table, id);
  }

  /** In every run, whatever is walked before the requested turn itself can be rebuilt: only the turn that a request
      names can make it fail on a payload. */
  lemma {:induction false} OnlyTheParentCanFail(s: Sys, run: seq<Action>, id: string)
    requires Initial(s) && id in Run(s, run).table
    ensures var e := Run(s, run);
            var chain := ParentChain(e.table, id);
            chain != [] && Last(chain) == e.table[id] && Readable(Init(chain), ColdOf(e))
  {
    RunKeepsRead(s, run);
    ChainEndsAtRequested(Run(s, run), id);
    WalkedAncestorsRead(Run(s, run), id);
  }

  lemma {:induction false} LastDecides(chain: seq<Row>, cold: Option<ColdMap>)
    requires chain != [] && Readable(Init(chain), cold)
    ensures Reconstruct(chain, cold).Ok? <==> CanRead(Last(chain), cold)
    ensures Reconstruct(chain, cold).Err? ==> Reconstruct(chain, cold) == RowMessages(Last(chain), cold)
  {
    ReconstructOkIff(Init(chain), cold);
  }

  lemma {:induction false} SuffixReadable(whole: seq<Row>, rest: seq<Row>, cold: Option<ColdMap>)
    requires IsSuffix(rest, whole) && rest != [] && Readable(Init(whole), cold)
    ensures Last(rest) == Last(whole) && Readable(Init(rest), cold)
  {
    var gap := |whole| - |rest|;
    assert forall k :: 0 <= k < |rest| ==> rest[k] == whole[gap + k];
    forall k | 0 <= k < |Init(rest)| ensures CanRead(Init(rest)[k], cold) {
      assert Init(rest)[k] == Init(whole)[gap + k];
    }
  }

  lemma {:induction false} SameHistoryFate(s: Sys, run: seq<Action>, id: string, asOf: int)
    requires Initial(s) && id != "" && id in Run(s, run).table && !Expired(Run(s, run).table[id], asOf)
    ensures var e := Run(s, run);
            var before, after := Reconstruct(ParentChain(e.table, id), ColdOf(e)),
                                 Reconstruct(ParentChain(Purge(e.table, asOf), id), ColdOf(e));
            (before.Ok? <==> after.Ok?) && (before.Err? ==> after == before)
  {
    var e := Run(s, run);
    var whole, rest := ParentChain(e.table, id), ParentChain(Purge(e.table, asOf), id);
    RunKeeps(s, run);
    OnlyTheParentCanFail(s, run, id);
    CleanupKeepsSuffix(e.table, id, asOf);
    WalkOnAnyTable(Purge(e.table, asOf), id);
    SuffixReadable(whole, rest, ColdOf(e));
    LastDecides(whole, ColdOf(e));
    LastDecides(rest, ColdOf(e));
  }

  /** In every run, a cleanup changes of an answer, at any later time, only how death is reported, and how far back the
      history goes: expired may become not found, every other failure stays the same failure, and a request resolves
      after it exactly when it resolved before. */
  lemma {:induction false} CleanupNeverMends(s: Sys, run: seq<Action>, request: Fields, provider: string, asOf: int, now: int)
    requires Initial(s) && asOf <= now
    ensures var e := Run(s, run);
            var before, after := Resolve(e.table, ColdOf(e), request, provider, now),
                                 Resolve(Purge(e.table, asOf), ColdOf(e), request, provider, now);
            && (before.Ok? <==> after.Ok?)
            && (before.Ok? ==> after.value.sessionId == before.value.sessionId && after.value.parentId == before.value.parentId)
            && (before.Err? ==> after == before || (before == Err(PreviousExpired) && after == Err(NotFound)))
  {
    var e, prev := Run(s, run), Get(request, PREV);
    CleanupChecksParent(e.table, prev, provider, asOf, now);
    if Truthy(prev) && CheckParent(e.table, prev, provider, now).Ok? {
      SameHistoryFate(s, run, prev.s, asOf);
    }
  }
}
