/** gateway/session/resolver.py: the parent walk, the rebuilt history and the resolved request. */
module Resolver {
  import opened JsonValues
  import opened Store

  // ---------- The parent walk ----------

  /** The rows met from `cur` upwards, newest first: the walk before its final reversal. */
  function Trail(table: Table, cur: Option<string>, visited: set<string>): seq<Row>
    decreases table.Keys - visited
  {
    if cur.None? || cur.value == "" || cur.value in visited || cur.value !in table then []
    else [table[cur.value]] + Trail(table, table[cur.value].parent, visited + {cur.value})
  }

  /** The walk's result, in chronological order. */
  function ParentChain(table: Table, id: string): seq<Row> {
    Reverse(Trail(table, Some(id), {}))
  }

  /** Each row is the parent of the next. */
  predicate Linked(chain: seq<Row>) {
    forall k :: 0 < k < |chain| ==> chain[k].parent == Some(chain[k - 1].id)
  }

  predicate DistinctRows(chain: seq<Row>) {
    forall i, j :: 0 <= i < j < |chain| ==> chain[i].id != chain[j].id
  }

  lemma {:induction false} TrailFacts(table: Table, cur: Option<string>, visited: set<string>)
    requires Keyed(table)
    ensures var trail := Trail(table, cur, visited);
            && |trail| <= |table.Keys - visited| && DistinctRows(trail)
            && (forall k :: 0 <= k < |trail| ==>
                  trail[k].id in table && table[trail[k].id] == trail[k] && trail[k].id !in visited)
            && (forall k :: 0 < k < |trail| ==> trail[k - 1].parent == Some(trail[k].id))
            && (trail != [] ==> Some(trail[0].id) == cur)
    decreases table.Keys - visited
  {
    if !(cur.None? || cur.value == "" || cur.value in visited || cur.value !in table) {
      var row, rest := table[cur.value], Trail(table, table[cur.value].parent, visited + {cur.value});
      TrailFacts(table, row.parent, visited + {cur.value});
      assert table.Keys - (visited + {cur.value}) == (table.Keys - visited) - {cur.value};
      assert Trail(table, cur, visited) == [row] + rest;
    }
  }

  /** There is nothing to go on to: no id, one that the table lacks, or one that was met already. */
  predicate EndsAt(table: Table, met: seq<Row>, parent: Option<string>) {
    parent.None? || parent.value == "" || parent.value !in table || exists k :: 0 <= k < |met| && met[k].id == parent.value
  }

  lemma {:induction false} TrailEnds(table: Table, cur: Option<string>, visited: set<string>)
    requires Keyed(table)
    ensures var trail := Trail(table, cur, visited);
            trail != [] ==> EndsAt(table, trail, Last(trail).parent) || Last(trail).parent.value in visited
    decreases table.Keys - visited
  {
    var trail := Trail(table, cur, visited);
    if trail != [] {
      var row, seen := table[cur.value], visited + {cur.value};
      var rest := Trail(table, row.parent, seen);
      assert trail == [row] + rest;
      TrailEnds(table, row.parent, seen);
      if rest != [] {
        assert Last(trail) == Last(rest);
        assert forall k :: 0 <= k < |rest| ==> trail[k + 1] == rest[k];
      }
      assert trail[0].id == cur.value;
    }
  }

  /** The walk goes on as long as there is a parent to go on to. */
  lemma {:induction false} WalkStopsOnlyAtAnEnd(table: Table, id: string)
    requires Keyed(table) && ParentChain(table, id) != []
    ensures EndsAt(table, ParentChain(table, id), ParentChain(table, id)[0].parent)
  {
    var trail, chain := Trail(table, Some(id), {}), ParentChain(table, id);
    TrailEnds(table, Some(id), {});
    assert forall k :: 0 <= k < |trail| ==> trail[k] == chain[|trail| - 1 - k];
  }

  /** On any table, cyclic or dangling parents included, the walk returns distinct rows of the table, each the
      parent of the next, ending at the requested id when that is present. */
  lemma {:induction false} WalkOnAnyTable(table: Table, id: string)
    requires Keyed(table)
    ensures var chain := ParentChain(table, id);
            && |chain| <= |table| && DistinctRows(chain) && Linked(chain)
            && (forall row :: row in chain ==> row.id in table && table[row.id] == row)
            && (id != "" && id in table ==> chain != [] && Last(chain) == table[id])
            && (id !in table ==> chain == [])
  {
    var trail, chain := Trail(table, Some(id), {}), ParentChain(table, id);
    TrailFacts(table, Some(id), {});
    assert table.Keys - {} == table.Keys;
    forall k | 0 < k < |chain| ensures chain[k].parent == Some(chain[k - 1].id) {
      assert chain[k] == trail[|trail| - 1 - k] && chain[k - 1] == trail[|trail| - k];
    }
  }

  // ---------- The walk after a cleanup ----------

  /** The rows before the first expired one. */
  function AliveRun(trail: seq<Row>, asOf: int): (r: seq<Row>)
    ensures r <= trail
  {
    if trail == [] || Expired(trail[0], asOf) then [] else [trail[0]] + AliveRun(trail[1..], asOf)
  }

  /** On any table, cleanup cuts the walk at its first expired row and changes nothing before that. */
  lemma {:induction false} CleanupCutsTrail(table: Table, cur: Option<string>, visited: set<string>, asOf: int)
    ensures Trail(Purge(table, asOf), cur, visited) == AliveRun(Trail(table, cur, visited), asOf)
    decreases table.Keys - visited
  {
    if !(cur.None? || cur.value == "" || cur.value in visited || cur.value !in table) {
      var row := table[cur.value];
      var trail := Trail(table, cur, visited);
      assert trail[0] == row && trail[1..] == Trail(table, row.parent, visited + {cur.value});
      CleanupCutsTrail(table, row.parent, visited + {cur.value}, asOf);
    }
  }

  lemma {:induction false} CleanupKeepsSuffix(table: Table, id: string, asOf: int)
    ensures IsSuffix(ParentChain(Purge(table, asOf), id), ParentChain(table, id))
  {
    CleanupCutsTrail(table, Some(id), {}, asOf);
    ReversePrefix(AliveRun(Trail(table, Some(id), {}), asOf), Trail(table, Some(id), {}));
  }

  // ---------- Messages rebuilt from a row ----------

  datatype Failure = NotFound | PreviousExpired | ProviderMismatch | ColdUnavailable | BadPayload

  function NormalizeInput(current: Json): seq<Json> {
    match current
    case Str(s) => [Obj(map["role" := Str("user"), "content" := current])]
    case Arr(elems) => elems
    case Obj(_) => [current]
    case _ => []
  }

  predicate IsSystem(item: Json) {
    HasField(item, "role", "system")
  }

  function WithoutSystem(items: seq<Json>): seq<Json> {
    if items == [] then []
    else WithoutSystem(Init(items)) + if IsSystem(Last(items)) then [] else [Last(items)]
  }

  /** What one output item contributes. */
  function OutputMessage(item: Json): seq<Json> {
    if HasField(item, "type", "message")
    then [Obj(map["role" := Str("assistant"), "content" := GetOr(item.fields, "content", Arr([]))])]
    else if HasField(item, "type", "function_call") then [item]
    else []
  }

  function ItemsMessages(items: seq<Json>): seq<Json> {
    if items == [] then [] else ItemsMessages(Init(items)) + OutputMessage(Last(items))
  }

  /** Iterating over a string or a dictionary meets no dictionary item; a null or a number cannot be iterated. */
  function OutputMessages(output: Json): Result<seq<Json>, Failure> {
    match output
    case Arr(items) => Ok(ItemsMessages(items))
    case Str(_) => Ok([])
    case Obj(_) => Ok([])
    case _ => Err(BadPayload)
  }

  /** The payload of a row: inline, or one field of the offloaded object under the field's own name. */
  function Payload(row: Row, cold: Option<ColdMap>, field: string): Result<Fields, Failure> {
    if row.coldKey.Some? && row.coldKey.value != "" then
      if cold.None? || row.coldKey.value !in cold.value then Err(ColdUnavailable)
      else match cold.value[row.coldKey.value]
        case Obj(full) => Ok(map[field := GetOr(full, field, Arr([]))])
        case _ => Err(BadPayload)
    else
      var inline := if field == "input" then row.input else row.output;
      if inline.Some? && inline.value != map[] then Ok(inline.value) else Ok(map[field := Arr([])])
  }

  /** The messages one row adds to the history. */
  function RowMessages(row: Row, cold: Option<ColdMap>): Result<seq<Json>, Failure> {
    match Payload(row, cold, "input")
    case Err(e) => Err(e)
    case Ok(input) =>
      match Payload(row, cold, "output")
      case Err(e) => Err(e)
      case Ok(output) =>
        match OutputMessages(GetOr(output, "output", Arr([])))
        case Err(e) => Err(e)
        case Ok(out) => Ok(WithoutSystem(NormalizeInput(GetOr(input, "input", Arr([])))) + out)
  }

  /** Messages after messages; the first failure decides. */
  function Join(before: Result<seq<Json>, Failure>, own: Result<seq<Json>, Failure>): Result<seq<Json>, Failure> {
    if before.Err? then before else if own.Err? then own else Ok(before.value + own.value)
  }

  /** The history of a chain. */
  function Reconstruct(chain: seq<Row>, cold: Option<ColdMap>): Result<seq<Json>, Failure> {
    if chain == [] then Ok([]) else Join(Reconstruct(Init(chain), cold), RowMessages(Last(chain), cold))
  }

  lemma {:induction false} JoinAssociative(a: Result<seq<Json>, Failure>, b: Result<seq<Json>, Failure>, c: Result<seq<Json>, Failure>)
    ensures Join(Join(a, b), c) == Join(a, Join(b, c))
  {
    if a.Ok? && b.Ok? && c.Ok? {
      AppendAssociative(a.value, b.value, c.value);
    }
  }

  /** The history of a chain splits at any point into the histories of its two halves. */
  lemma {:induction false} ReconstructSplits(a: seq<Row>, b: seq<Row>, cold: Option<ColdMap>)
    ensures Reconstruct(a + b, cold) == Join(Reconstruct(a, cold), Reconstruct(b, cold))
  {
    if b == [] {
      assert a + b == a;
      assert Reconstruct(a, cold).Ok? ==> Reconstruct(a, cold).value + [] == Reconstruct(a, cold).value;
    } else {
      var own := RowMessages(Last(b), cold);
      calc {
        Reconstruct(a + b, cold);
        { assert Init(a + b) == a + Init(b) && Last(a + b) == Last(b); }
        Join(Reconstruct(a + Init(b), cold), own);
        { ReconstructSplits(a, Init(b), cold); }
        Join(Join(Reconstruct(a, cold), Reconstruct(Init(b), cold)), own);
        { JoinAssociative(Reconstruct(a, cold), Reconstruct(Init(b), cold), own); }
        Join(Reconstruct(a, cold), Reconstruct(b, cold));
      }
    }
  }

  /** One more row: its messages follow, or its failure is the chain's. */
  lemma {:induction false} ReconstructStep(chain: seq<Row>, i: nat, cold: Option<ColdMap>)
    requires i < |chain|
    ensures Reconstruct(chain[..i + 1], cold) == Join(Reconstruct(chain[..i], cold), RowMessages(chain[i], cold))
    ensures Reconstruct(chain[..i + 1], cold).Err? ==> Reconstruct(chain, cold) == Reconstruct(chain[..i + 1], cold)
  {
    assert Init(chain[..i + 1]) == chain[..i];
    assert chain[..i + 1] + chain[i + 1..] == chain;
    ReconstructSplits(chain[..i + 1], chain[i + 1..], cold);
  }

  // ---------- Resolving a request ----------

  datatype Resolved = Resolved(request: Fields, sessionId: Option<string>, parentId: Option<string>)

  const PREV := "previous_response_id"

  /** The request with the history in front of its own input. */
  function Expand(request: Fields, history: seq<Json>): Fields {
    request["input" := Arr(history + NormalizeInput(GetOr(request, "input", Arr([]))))] - {PREV}
  }

  /** `sent` is `request` with the history in front of its own input, which is one message of the user when it is a text,
      without the pointer, and otherwise the same. */
  predicate Continues(request: Fields, history: seq<Json>, sent: Fields) {
    && "input" in sent && "previous_response_id" !in sent
    && ("input" !in request ==> sent["input"] == Arr(history))
    && ("input" in request ==>
          match request["input"]
          case Str(text) => sent["input"] == Arr(history + [Obj(map["role" := Str("user"), "content" := Str(text)])])
          case Arr(items) => sent["input"] == Arr(history + items)
          case Obj(_) => sent["input"] == Arr(history + [request["input"]])
          case _ => sent["input"] == Arr(history))
    && forall k :: k in sent.Keys + request.Keys && k != "input" && k != "previous_response_id" ==>
         k in sent && k in request && sent[k] == request[k]
  }

  lemma {:induction false} ExpandContinues(request: Fields, history: seq<Json>)
    ensures Continues(request, history, Expand(request, history))
  {
    assert history + [] == history;
  }

  /** The checks on the parent row itself. */
  function CheckParent(table: Table, prev: Json, provider: string, now: int): Result<Row, Failure> {
    if !prev.Str? || prev.s !in table then Err(NotFound)
    else if Expired(table[prev.s], now) then Err(PreviousExpired)
    else if table[prev.s].provider != provider then Err(ProviderMismatch)
    else Ok(table[prev.s])
  }

  /** What is put in front of the request's own input. */
  function History(table: Table, cold: Option<ColdMap>, prev: Json): Result<seq<Json>, Failure> {
    if prev.Str? then Reconstruct(ParentChain(table, prev.s), cold) else Ok([])
  }

  function Resolve(table: Table, cold: Option<ColdMap>, request: Fields, provider: string, now: int)
    : Result<Resolved, Failure>
  {
    var prev := Get(request, PREV);
    if !Truthy(prev) then Ok(Resolved(request, None, None))
    else
      match CheckParent(table, prev, provider, now)
      case Err(e) => Err(e)
      case Ok(parent) =>
        match History(table, cold, prev)
        case Err(e) => Err(e)
        case Ok(history) => Ok(Resolved(Expand(request, history), Some(parent.sessionId), Some(prev.s)))
  }

  // ---------- What a request is answered, case by case ----------

  /** The pointer is missing, or false to Python. */
  predicate NoPointer(request: Fields) {
    "previous_response_id" !in request ||
    request["previous_response_id"] in [Null, Bool(false), Num(0), Str(""), Arr([]), Obj(map[])]
  }

  /** Exactly a request without a pointer is handed over as it came. */
  lemma {:induction false} UntouchedIffNoPointer(table: Table, cold: Option<ColdMap>, request: Fields, provider: string, now: int)
    ensures Resolve(table, cold, request, provider, now) == Ok(Resolved(request, None, None)) <==> NoPointer(request)
  {
    assert Truthy(Get(request, PREV)) <==> !NoPointer(request);
  }

  /** A pointer is answered by the row under it: none, expired, another provider's, one with an unreadable history, or a
      request that continues that history in the row's session. */
  lemma {:induction false} PointerIsAnswered(table: Table, cold: Option<ColdMap>, request: Fields, provider: string, now: int)
    requires !NoPointer(request)
    ensures var pointer, r := request["previous_response_id"], Resolve(table, cold, request, provider, now);
            if !pointer.Str? || pointer.s !in table then r == Err(NotFound)
            else
              var row := table[pointer.s];
              var history := Reconstruct(ParentChain(table, pointer.s), cold);
              if row.ttlAt.Some? && row.ttlAt.value < now then r == Err(PreviousExpired)
              else if row.provider != provider then r == Err(ProviderMismatch)
              else if history.Err? then r == Err(history.error)
              else r.Ok? && Continues(request, history.value, r.value.request)
                   && r.value.sessionId == Some(row.sessionId) && r.value.parentId == Some(pointer.s)
  {
    UntouchedIffNoPointer(table, cold, request, provider, now);
    assert Truthy(Get(request, PREV));
    var pointer := request["previous_response_id"];
    if pointer.Str? && Reconstruct(ParentChain(table, pointer.s), cold).Ok? {
      ExpandContinues(request, Reconstruct(ParentChain(table, pointer.s), cold).value);
    }
  }

  /** Rebuilding a history fails for its payloads only. */
  lemma {:induction false} ReconstructFailures(chain: seq<Row>, cold: Option<ColdMap>)
    ensures Reconstruct(chain, cold).Err? ==> Reconstruct(chain, cold).error in {ColdUnavailable, BadPayload}
  {
    if chain != [] {
      ReconstructFailures(Init(chain), cold);
    }
  }

  lemma {:induction false} CleanupShortensHistory(table: Table, cold: Option<ColdMap>, prev: Json, asOf: int)
    requires History(table, cold, prev).Ok?
    ensures History(Purge(table, asOf), cold, prev).Ok?
    ensures IsSuffix(History(Purge(table, asOf), cold, prev).value, History(table, cold, prev).value)
  {
    if prev.Str? {
      var whole, rest := ParentChain(table, prev.s), ParentChain(Purge(table, asOf), prev.s);
      CleanupKeepsSuffix(table, prev.s, asOf);
      var lost := whole[..|whole| - |rest|];
      assert whole == lost + rest;
      ReconstructSplits(lost, rest, cold);
    }
  }

  lemma {:induction false} CleanupChecksParent(table: Table, prev: Json, provider: string, asOf: int, now: int)
    requires asOf <= now
    ensures var before, after := CheckParent(table, prev, provider, now), CheckParent(Purge(table, asOf), prev, provider, now);
            after == before || (before == Err(PreviousExpired) && after == Err(NotFound))
  {
  }

  predicate PayloadFailure(f: Failure) {
    f == ColdUnavailable || f == BadPayload
  }

  lemma {:induction false} HistoryFailures(table: Table, cold: Option<ColdMap>, prev: Json)
    ensures History(table, cold, prev).Err? ==> PayloadFailure(History(table, cold, prev).error)
  {
    if prev.Str? {
      ReconstructFailures(ParentChain(table, prev.s), cold);
    }
  }

  /** What becomes of a request's answer when a cleanup comes first, at any later time.  Not found stays not found,
      expired may become not found, another provider's parent still mismatches.  A request that resolved still does,
      with the same session and parent and a history that lost turns at the root side only.  A payload that could not
      be read may have been deleted: the request then resolves with what is left, or fails on a payload still; and a
      payload failure after the cleanup was one before. */
  lemma {:induction false} CleanupChangesAnswers(table: Table, cold: Option<ColdMap>, request: Fields, provider: string, asOf: int, now: int)
    requires asOf <= now
    ensures var prev := Get(request, PREV);
            var before, after := Resolve(table, cold, request, provider, now),
                                 Resolve(Purge(table, asOf), cold, request, provider, now);
            && (!Truthy(prev) ==> after == before)
            && (before == Err(NotFound) ==> after == Err(NotFound))
            && (before == Err(PreviousExpired) ==> after == Err(PreviousExpired) || after == Err(NotFound))
            && (before == Err(ProviderMismatch) <==> after == Err(ProviderMismatch))
            && (after == Err(NotFound) ==> before == Err(NotFound) || before == Err(PreviousExpired))
            && (after == Err(PreviousExpired) ==> before == Err(PreviousExpired))
            && (after.Err? && PayloadFailure(after.error) ==> before.Err? && PayloadFailure(before.error))
    ensures var before, after := Resolve(table, cold, request, provider, now),
                                 Resolve(Purge(table, asOf), cold, request, provider, now);
            && (before.Ok? && Truthy(Get(request, PREV)) ==>
                  exists lost, kept :: before.value.request == Expand(request, lost + kept) &&
                    after == Ok(before.value.(request := Expand(request, kept))))
            && (before.Err? && PayloadFailure(before.error) ==>
                  (after.Err? && PayloadFailure(after.error)) || Mended(table, cold, request, provider, asOf, now, after))
  {
    var prev := Get(request, PREV);
    CleanupChecksParent(table, prev, provider, asOf, now);
    HistoryFailures(table, cold, prev);
    HistoryFailures(Purge(table, asOf), cold, prev);
    if Truthy(prev) && CheckParent(table, prev, provider, now).Ok? {
      if History(table, cold, prev).Ok? {
        CleanupShortensHistory(table, cold, prev, asOf);
        var whole, kept := History(table, cold, prev).value, History(Purge(table, asOf), cold, prev).value;
        var lost := whole[..|whole| - |kept|];
        assert whole == lost + kept;
        assert Resolve(table, cold, request, provider, now).value.request == Expand(request, lost + kept);
      } else {
        CleanupKeepsSuffix(table, prev.s, asOf);
      }
    }
  }

  /** The request resolves with the history of the chain that the cleanup left, a newest part of the one before. */
  predicate Mended(table: Table, cold: Option<ColdMap>, request: Fields, provider: string, asOf: int, now: int,
                   after: Result<Resolved, Failure>)
  {
    var prev := Get(request, PREV);
    && prev.Str? && CheckParent(table, prev, provider, now).Ok?
    && IsSuffix(ParentChain(Purge(table, asOf), prev.s), ParentChain(table, prev.s))
    && var history := Reconstruct(ParentChain(Purge(table, asOf), prev.s), cold);
    && history.Ok?
    && after == Ok(Resolved(Expand(request, history.value), Some(table[prev.s].sessionId), Some(prev.s)))
  }

  // ---------- When a cleanup mends an answer ----------

  predicate CanRead(row: Row, cold: Option<ColdMap>) {
    RowMessages(row, cold).Ok?
  }

  predicate Readable(rows: seq<Row>, cold: Option<ColdMap>) {
    forall k :: 0 <= k < |rows| ==> CanRead(rows[k], cold)
  }

  lemma {:induction false} ReadableInit(rows: seq<Row>, cold: Option<ColdMap>)
    requires rows != []
    ensures Readable(rows, cold) <==> Readable(Init(rows), cold) && CanRead(Last(rows), cold)
  {
    var rest := Init(rows);
    assert rows[|rest|] == Last(rows) && forall k :: 0 <= k < |rest| ==> rows[k] == rest[k];
  }

  lemma {:induction false} ReconstructOkIff(chain: seq<Row>, cold: Option<ColdMap>)
    ensures Reconstruct(chain, cold).Ok? <==> Readable(chain, cold)
  {
    if chain != [] {
      ReconstructOkIff(Init(chain), cold);
      ReadableInit(chain, cold);
    }
  }

  lemma {:induction false} ReverseReadable(rows: seq<Row>, cold: Option<ColdMap>)
    ensures Readable(Reverse(rows), cold) <==> Readable(rows, cold)
  {
    var back := Reverse(rows);
    assert forall k :: 0 <= k < |rows| ==> rows[k] == back[|rows| - 1 - k];
    if Readable(back, cold) {
      forall k | 0 <= k < |rows| ensures CanRead(rows[k], cold) {
        assert CanRead(back[|rows| - 1 - k], cold);
      }
    }
  }

  /** On any table, once the parent passes its checks: the request resolves exactly when every row of the walk can be
      read, and after a cleanup exactly when every row before the first expired one can. */
  lemma {:induction false} ResolvesIff(table: Table, cold: Option<ColdMap>, request: Fields, provider: string, asOf: int, now: int)
    requires asOf <= now && Truthy(Get(request, PREV)) && CheckParent(table, Get(request, PREV), provider, now).Ok?
    ensures var trail := Trail(table, Some(Get(request, PREV).s), {});
            && (Resolve(table, cold, request, provider, now).Ok? <==> Readable(trail, cold))
            && (Resolve(Purge(table, asOf), cold, request, provider, now).Ok? <==> Readable(AliveRun(trail, asOf), cold))
  {
    var prev := Get(request, PREV);
    var trail := Trail(table, Some(prev.s), {});
    CleanupChecksParent(table, prev, provider, asOf, now);
    CleanupCutsTrail(table, Some(prev.s), {}, asOf);
    ReconstructOkIff(ParentChain(table, prev.s), cold);
    ReconstructOkIff(ParentChain(Purge(table, asOf), prev.s), cold);
    ReverseReadable(trail, cold);
    ReverseReadable(AliveRun(trail, asOf), cold);
  }

  /** A table on which a cleanup mends: the root was offloaded, cold storage is no longer configured, and a live child
      that was kept inline cannot be followed up until the expired root is deleted. */
  lemma {:induction false} CleanupMends(table: Table, request: Fields, root: Row, child: Row, now: int)
    requires table == map["r" := root, "c" := child]
    requires root.id == "r" && root.parent == None && root.coldKey.Some? && root.coldKey.value != ""
    requires root.ttlAt == Some(now - 1)
    requires child.id == "c" && child.parent == Some("r") && child.coldKey == None && child.ttlAt == Some(now)
    requires child.output == Some(map["output" := Arr([])])
    requires Get(request, PREV) == Str("c")
    ensures Resolve(table, None, request, child.provider, now) == Err(ColdUnavailable)
    ensures Resolve(Purge(table, now), None, request, child.provider, now).Ok?
  {
    TwoRowChains(table, root, child, now);
    ReconstructStep([root, child], 0, None);
    ReconstructStep([child], 0, None);
    assert [root, child][..1] == [root] && [child][..1] == [child];
    assert RowMessages(root, None) == Err(ColdUnavailable);
    assert RowMessages(child, None).Ok?;
  }

  lemma {:induction false} TwoRowChains(table: Table, root: Row, child: Row, now: int)
    requires table == map["r" := root, "c" := child] && root.parent == None && child.parent == Some("r")
    requires Expired(root, now) && !Expired(child, now)
    ensures ParentChain(table, "c") == [root, child] && ParentChain(Purge(table, now), "c") == [child]
  {
    var purged := Purge(table, now);
    var seen := {} + {"c"};
    assert Trail(table, Some("r"), seen) == [root] + Trail(table, None, seen + {"r"});
    assert Trail(table, Some("c"), {}) == [child] + Trail(table, Some("r"), seen);
    assert Trail(purged, Some("r"), seen) == [];
    assert Trail(purged, Some("c"), {}) == [child] + Trail(purged, Some("r"), seen);
  }

  // ---------- The resolver object ----------

  class SessionResolver {
    const store: SessionStore
    const cold: InMemoryColdStorage?

    constructor (store: SessionStore, cold: InMemoryColdStorage?)
      ensures this.store == store && this.cold == cold
    {
      this.store, this.cold := store, cold;
    }

    method ResolveRequest(request: Fields, currentProvider: string, now: int) returns (r: Result<Resolved, Failure>)
      ensures r == Resolve(store.table, ColdView(cold), request, currentProvider, now)
    {
      var prev := Get(request, PREV);
      if !Truthy(prev) {
        return Ok(Resolved(request, None, None));
      }
      if !prev.Str? {
        return Err(NotFound);
      }
      var parent := store.GetById(prev.s);
      if parent.None? {
        return Err(NotFound);
      }
      if Expired(parent.value, now) {
        return Err(PreviousExpired);
      }
      if parent.value.provider != currentProvider {
        return Err(ProviderMismatch);
      }
      var chain, _ := WalkParentChain(prev.s);
      var history := ReconstructMessages(chain);
      if history.Err? {
        return Err(history.error);
      }
      r := Ok(Resolved(Expand(request, history.value), Some(parent.value.sessionId), Some(prev.s)));
    }

    /** At most one lookup more than there are rows, on any table. */
    method WalkParentChain(startId: string) returns (chain: seq<Row>, lookups: nat)
      ensures chain == ParentChain(store.table, startId)
      ensures lookups <= |store.table| + 1
    {
      chain, lookups := [], 0;
      var visited: set<string> := {};
      var cur := Some(startId);
      var searching := true;
      while searching && cur.Some? && cur.value != "" && cur.value !in visited
        invariant searching ==> Trail(store.table, Some(startId), {}) == chain + Trail(store.table, cur, visited)
        invariant !searching ==> Trail(store.table, Some(startId), {}) == chain
        invariant searching ==> visited <= store.table.Keys && lookups == |visited|
        invariant lookups <= |store.table| + 1
        decreases searching, store.table.Keys - visited
      {
        SubsetSize(visited, store.table.Keys);
        visited := visited + {cur.value};
        lookups := lookups + 1;
        var row := store.GetById(cur.value);
        if row.None? {
          searching := false;
        } else {
          chain := chain + [row.value];
          cur := row.value.parent;
        }
      }
      chain := Reverse(chain);
    }

    method ReconstructMessages(chain: seq<Row>) returns (r: Result<seq<Json>, Failure>)
      ensures r == Reconstruct(chain, ColdView(cold))
    {
      var messages := [];
      for i := 0 to |chain|
        invariant Reconstruct(chain[..i], ColdView(cold)) == Ok(messages)
      {
        ReconstructStep(chain, i, ColdView(cold));
        var own := MessagesOf(chain[i]);
        if own.Err? {
          return own;
        }
        messages := messages + own.value;
      }
      assert chain[..|chain|] == chain;
      r := Ok(messages);
    }

    /** One pass of the loop over the chain. */
    method MessagesOf(row: Row) returns (r: Result<seq<Json>, Failure>)
      ensures r == RowMessages(row, ColdView(cold))
    {
      var input := PayloadOf(row, "input");
      if input.Err? {
        return Err(input.error);
      }
      var output := PayloadOf(row, "output");
      if output.Err? {
        return Err(output.error);
      }
      var messages := ExtractNonSystemInput(GetOr(input.value, "input", Arr([])));
      var said := ExtractOutput(GetOr(output.value, "output", Arr([])));
      r := if said.Err? then said else Ok(messages + said.value);
    }

    method ExtractOutput(output: Json) returns (r: Result<seq<Json>, Failure>)
      ensures r == OutputMessages(output)
    {
      match output {
        case Arr(items) =>
          var messages := [];
          for i := 0 to |items|
            invariant messages == ItemsMessages(items[..i])
          {
            assert Init(items[..i + 1]) == items[..i];
            messages := messages + OutputMessage(items[i]);
          }
          assert items[..|items|] == items;
          r := Ok(messages);
        case Str(_) => r := Ok([]);
        case Obj(_) => r := Ok([]);
        case _ => r := Err(BadPayload);
      }
    }

    method PayloadOf(row: Row, field: string) returns (r: Result<Fields, Failure>)
      requires field == "input" || field == "output"
      ensures r == Payload(row, ColdView(cold), field)
    {
      if row.coldKey.Some? && row.coldKey.value != "" {
        if cold == null {
          return Err(ColdUnavailable);
        }
        var full := cold.GetPayload(row.coldKey.value);
        if full.None? {
          return Err(ColdUnavailable);
        }
        if !full.value.Obj? {
          return Err(BadPayload);
        }
        return Ok(map[field := GetOr(full.value.fields, field, Arr([]))]);
      }
      var inline := if field == "input" then row.input else row.output;
      r := Ok(if inline.Some? && inline.value != map[] then inline.value else map[field := Arr([])]);
    }

    method ExtractNonSystemInput(items: Json) returns (out: seq<Json>)
      ensures out == WithoutSystem(NormalizeInput(items))
    {
      var normalized := NormalizeInput(items);
      out := [];
      for i := 0 to |normalized|
        invariant out == WithoutSystem(normalized[..i])
      {
        assert Init(normalized[..i + 1]) == normalized[..i];
        if !IsSystem(normalized[i]) {
          out := out + [normalized[i]];
        }
      }
      assert normalized[..|normalized|] == normalized;
    }
  }
}
