/** What the bridge's accumulator holds after any stream, and when it equals the non-streaming response. */
module StreamFold {
  import opened JsonValues
  import opened Streaming

  // ---------- Order and ids of the output ----------

  /** The ids of the announcements in a trace, one entry for each. */
  function Announced(trace: seq<Event>): seq<string> {
    if trace == [] then []
    else Announced(Init(trace)) + if Announces(Last(trace)) then [Last(trace).item.id.value] else []
  }

  predicate Announces(e: Event) {
    e.kind.ItemAdded? && Real(e.item.id)
  }

  /** `e` replaces the whole item. */
  predicate Sets(e: Event, id: string) {
    (e.kind.ItemAdded? || e.kind.ItemDone?) && e.item.id == Some(id) && id != ""
  }

  predicate WellKeyed(a: Acc) {
    Covered(a) && forall id :: id in a.items ==> a.items[id].id == Some(id)
  }

  lemma {:induction false} ConsumeKeepsKeys(a: Acc, e: Event)
    requires WellKeyed(a)
    ensures WellKeyed(Consume(a, e))
    ensures Consume(a, e).order == a.order + if Announces(e) then [e.item.id.value] else []
  {
  }

  /** Output order is announcement order with repeats kept; each entry is stored under its own id. */
  lemma {:induction false} OutputFollowsAnnouncements(trace: seq<Event>)
    ensures Accumulate(trace).order == Announced(trace) && WellKeyed(Accumulate(trace))
  {
    if trace != [] {
      OutputFollowsAnnouncements(Init(trace));
      ConsumeKeepsKeys(Accumulate(Init(trace)), Last(trace));
    }
  }

  // ---------- Function-call arguments ----------

  /** The argument deltas addressed to one item, joined. */
  function ArgDeltas(trace: seq<Event>, id: string): string {
    if trace == [] then ""
    else ArgDeltas(Init(trace), id) + ArgDelta(Last(trace), id)
  }

  function ArgDelta(e: Event, id: string): string {
    if e.kind.ArgsDelta? && e.itemId == Some(id) then e.delta else ""
  }

  lemma {:induction false} ConsumeArguments(a: Acc, e: Event, id: string)
    requires id in a.items && id != "" && !Sets(e, id)
    ensures id in Consume(a, e).items
    ensures ArgText(Consume(a, e).items[id]) == ArgText(a.items[id]) + ArgDelta(e, id)
  {
  }

  /** An item's arguments are those of the last event that set it, then exactly its own later deltas,
      whatever is interleaved. */
  lemma {:induction false} ArgumentsAreBaseAndLaterDeltas(trace: seq<Event>, id: string, k: nat)
    requires k < |trace| && Sets(trace[k], id)
    requires forall j :: k < j < |trace| ==> !Sets(trace[j], id)
    ensures id in Accumulate(trace).items
    ensures ArgText(Accumulate(trace).items[id]) == ArgText(trace[k].item) + ArgDeltas(trace[k + 1..], id)
  {
    if k + 1 == |trace| {
      assert trace[k + 1..] == [];
    } else {
      var rest, e, later := Init(trace), Last(trace), trace[k + 1..];
      ArgumentsAreBaseAndLaterDeltas(rest, id, k);
      ConsumeArguments(Accumulate(rest), e, id);
      assert Init(later) == rest[k + 1..] && Last(later) == e;
      AppendAssociative(ArgText(trace[k].item), ArgDeltas(rest[k + 1..], id), ArgDelta(e, id));
    }
  }

  /** Before anything sets it, an item does not exist and its deltas are dropped. */
  lemma {:induction false} UnsetItemsAreAbsent(trace: seq<Event>, id: string)
    requires forall j :: 0 <= j < |trace| ==> !Sets(trace[j], id)
    ensures id !in Accumulate(trace).items
  {
    if trace != [] {
      UnsetItemsAreAbsent(Init(trace), id);
    }
  }

  // ---------- The other response fields ----------

  /** What the `response.created` events say, later ones over earlier ones. */
  function CreatedFields(trace: seq<Event>): Fields {
    if trace == [] then map[]
    else
      var e := Last(trace);
      CreatedFields(Init(trace)) + if e.kind.Created? && e.response.Some? then e.response.value else map[]
  }

  /** The event has a say in the recorded usage: a created event by naming it, a completed one only by a true value. */
  predicate ReportsUsage(e: Event) {
    e.response.Some? &&
    ((e.kind.Created? && "usage" in e.response.value) || (e.kind.Completed? && Truthy(Get(e.response.value, "usage"))))
  }

  /** The usage that was reported last. */
  function ReportedUsage(trace: seq<Event>): Json {
    if trace == [] then Obj(map[])
    else if ReportsUsage(Last(trace)) then Get(Last(trace).response.value, "usage")
    else ReportedUsage(Init(trace))
  }

  const BUFFERED := {"output", "usage"}

  /** For any trace: beside output and usage, the recorded fields are those of the created events, and nothing a
      completed event says gets in; usage is the one reported last. */
  lemma {:induction false} RecordedFields(trace: seq<Event>)
    ensures Accumulate(trace).response - BUFFERED == CreatedFields(trace) - BUFFERED
    ensures "usage" in Accumulate(trace).response && Accumulate(trace).response["usage"] == ReportedUsage(trace)
    ensures "output" in Accumulate(trace).response
  {
    if trace != [] {
      RecordedFields(Init(trace));
      ConsumeFields(Accumulate(Init(trace)), Last(trace));
      var e, before, created := Last(trace), Accumulate(Init(trace)).response, CreatedFields(Init(trace));
      if e.kind.Created? && e.response.Some? {
        MergeApart(before, created, e.response.value);
      } else {
        assert CreatedFields(trace) == created;
      }
    }
  }

  lemma {:induction false} ConsumeFields(a: Acc, e: Event)
    requires BUFFERED <= a.response.Keys
    ensures var told := if e.kind.Created? && e.response.Some? then e.response.value else map[];
            && Consume(a, e).response - BUFFERED == a.response + told - BUFFERED
            && BUFFERED <= Consume(a, e).response.Keys
    ensures Consume(a, e).response["usage"] ==
            if ReportsUsage(e) then Get(e.response.value, "usage") else a.response["usage"]
  {
    var told: Fields := if e.kind.Created? && e.response.Some? then e.response.value else map[];
    assert told == map[] ==> a.response + told == a.response;
  }

  lemma {:induction false} MergeApart(a: Fields, b: Fields, c: Fields)
    requires a - BUFFERED == b - BUFFERED
    ensures a + c - BUFFERED == b + c - BUFFERED
  {
    assert forall k :: k in a - BUFFERED <==> k in b - BUFFERED;
    forall k | k in a && k !in BUFFERED ensures k in b && a[k] == b[k] {
      assert (a - BUFFERED)[k] == (b - BUFFERED)[k];
    }
    forall k | k in b && k !in BUFFERED ensures k in a {
      assert k in b - BUFFERED;
    }
  }

  /** The event gives the field a value. */
  predicate Tells(e: Event, key: string) {
    e.kind.Created? && e.response.Some? && key in e.response.value
  }

  /** Any other field has the value that the last created event naming it gave it, and is missing when none did: later
      events of other kinds cannot correct a single one. */
  lemma {:induction false} FieldIsLastCreated(trace: seq<Event>, key: string)
    requires key !in BUFFERED
    ensures (exists k :: 0 <= k < |trace| && Tells(trace[k], key)) <==> key in Accumulate(trace).response
    ensures forall k :: 0 <= k < |trace| && Tells(trace[k], key) && (forall l :: k < l < |trace| ==> !Tells(trace[l], key)) ==>
              Get(Accumulate(trace).response, key) == trace[k].response.value[key]
  {
    RecordedFields(trace);
    SomeTold(trace, key);
    forall k | 0 <= k < |trace| && Tells(trace[k], key) && (forall l :: k < l < |trace| ==> !Tells(trace[l], key))
      ensures Get(CreatedFields(trace), key) == trace[k].response.value[key]
    {
      LastTold(trace, key, k);
    }
    var recorded, created := Accumulate(trace).response, CreatedFields(trace);
    assert key in recorded <==> key in recorded - BUFFERED;
    assert key in created <==> key in created - BUFFERED;
    assert key in recorded ==> recorded[key] == (recorded - BUFFERED)[key];
    assert key in created ==> created[key] == (created - BUFFERED)[key];
  }

  lemma {:induction false} CreatedStep(trace: seq<Event>)
    requires trace != []
    ensures var e := Last(trace);
            CreatedFields(trace) == if e.kind.Created? && e.response.Some? then CreatedFields(Init(trace)) + e.response.value
                                    else CreatedFields(Init(trace))
  {
    var none: Fields := map[];
    assert CreatedFields(Init(trace)) + none == CreatedFields(Init(trace));
  }

  lemma {:induction false} SomeTold(trace: seq<Event>, key: string)
    ensures (exists k :: 0 <= k < |trace| && Tells(trace[k], key)) <==> key in CreatedFields(trace)
  {
    if trace != [] {
      var rest := Init(trace);
      SomeTold(rest, key);
      CreatedStep(trace);
      if k :| 0 <= k < |rest| && Tells(rest[k], key) {
        assert Tells(trace[k], key);
      } else if Tells(Last(trace), key) {
        assert Tells(trace[|rest|], key);
      } else {
        assert forall k :: 0 <= k < |rest| ==> trace[k] == rest[k];
      }
    }
  }

  lemma {:induction false} LastTold(trace: seq<Event>, key: string, k: nat)
    requires k < |trace| && Tells(trace[k], key) && forall l :: k < l < |trace| ==> !Tells(trace[l], key)
    ensures Get(CreatedFields(trace), key) == trace[k].response.value[key]
  {
    CreatedStep(trace);
    if k < |Init(trace)| {
      LastTold(Init(trace), key, k);
    }
  }

  /** When a stream has one created event, those are that event's fields. */
  lemma {:induction false} OneCreated(trace: seq<Event>)
    requires trace != [] && trace[0].kind.Created? && trace[0].response.Some?
    requires forall k :: 0 < k < |trace| ==> !trace[k].kind.Created?
    ensures CreatedFields(trace) == trace[0].response.value
  {
    if |trace| == 1 {
      assert Init(trace) == [];
    } else {
      OneCreated(Init(trace));
      assert Last(trace) == trace[|trace| - 1];
    }
  }

  /** Usage is what the last event with a say in it reported, and empty when there is none. */
  lemma {:induction false} UsageIsLastReported(trace: seq<Event>)
    ensures "usage" in Accumulate(trace).response
    ensures forall k :: 0 <= k < |trace| && ReportsUsage(trace[k]) && (forall l :: k < l < |trace| ==> !ReportsUsage(trace[l])) ==>
              Accumulate(trace).response["usage"] == trace[k].response.value["usage"]
    ensures (forall k :: 0 <= k < |trace| ==> !ReportsUsage(trace[k])) ==>
              Accumulate(trace).response["usage"] == Obj(map[])
  {
    RecordedFields(trace);
    forall k | 0 <= k < |trace| && ReportsUsage(trace[k]) && (forall l :: k < l < |trace| ==> !ReportsUsage(trace[l]))
      ensures ReportedUsage(trace) == Get(trace[k].response.value, "usage")
    {
      LastReport(trace, k);
    }
    if forall k :: 0 <= k < |trace| ==> !ReportsUsage(trace[k]) {
      NoReport(trace);
    }
  }

  lemma {:induction false} LastReport(trace: seq<Event>, k: nat)
    requires k < |trace| && ReportsUsage(trace[k]) && forall l :: k < l < |trace| ==> !ReportsUsage(trace[l])
    ensures ReportedUsage(trace) == Get(trace[k].response.value, "usage")
  {
    if k < |Init(trace)| {
      LastReport(Init(trace), k);
    }
  }

  lemma {:induction false} NoReport(trace: seq<Event>)
    requires forall l :: 0 <= l < |trace| ==> !ReportsUsage(trace[l])
    ensures ReportedUsage(trace) == Obj(map[])
  {
    if trace != [] {
      NoReport(Init(trace));
    }
  }

  /** The ordinary stream: created in progress, completed as completed, and recorded as still in progress. */
  lemma {:induction false} CompletedStaysInProgress(created: Event, completed: Event)
    requires created.kind.Created? && created.response == Some(map["status" := Str("in_progress")])
    requires completed.kind.Completed? && completed.response == Some(map["status" := Str("completed")])
    ensures Get(Accumulate([created, completed]).response, "status") == Str("in_progress")
  {
    var t := [created, completed];
    assert Init(t) == [created] && Init([created]) == [];
    assert Accumulate([created]) == Consume(EMPTY_ACC, created);
  }

  // ---------- Fields through the bridge ----------

  /** Inserted announcements leave every response field alone. */
  lemma {:induction false} ForwardKeepsFields(src: seq<Event>)
    ensures Accumulate(Events(Forward(src))).response == Accumulate(src).response
  {
    if src == [] {
      assert Events(Forward(src)) == [];
    } else {
      var t, missing, e := Events(Forward(Init(src))), Missing(BookAfter(Init(src)), Last(src)), Last(src);
      ForwardKeepsFields(Init(src));
      ForwardLast(src);
      NoticesKeepFields(t, missing);
      AccumulateAppend(t + missing, e);
      SameFields(Accumulate(t + missing), Accumulate(Init(src)), e);
    }
  }

  lemma {:induction false} SameFields(a: Acc, b: Acc, e: Event)
    requires a.response == b.response
    ensures Consume(a, e).response == Consume(b, e).response
  {
  }

  lemma {:induction false} NoticesKeepFields(t: seq<Event>, notices: seq<Event>)
    requires forall k :: 0 <= k < |notices| ==> notices[k].kind.ItemAdded? || notices[k].kind.PartAdded?
    ensures Accumulate(t + notices).response == Accumulate(t).response
  {
    if notices == [] {
      assert t + notices == t;
    } else {
      NoticesKeepFields(t, Init(notices));
      assert Init(t + notices) == t + Init(notices);
    }
  }
}
