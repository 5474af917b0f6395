/** What stripping leaves, when a second look finds nothing, and how the two modes agree. */
module ValidatorTheorems {
  import opened JsonValues
  import opened Validator

  // ---------- The report on tools ----------

  lemma {:induction false} IndicesAscend(cfg: RejectConfig, tools: seq<Json>)
    ensures Ascending(DroppedIndices(cfg, tools))
  {
    if tools != [] {
      IndicesAscend(cfg, Init(tools));
      assert forall k :: 0 <= k < |DroppedIndices(cfg, Init(tools))| ==> DroppedIndices(cfg, Init(tools))[k] < |tools| - 1;
    }
  }

  lemma {:induction false} DroppedIsReported(cfg: RejectConfig, tools: seq<Json>, i: nat)
    requires i < |tools| && Dropped(cfg, tools[i])
    ensures i in DroppedIndices(cfg, tools)
  {
    if i < |Init(tools)| {
      DroppedIsReported(cfg, Init(tools), i);
    } else {
      assert Last(DroppedIndices(cfg, tools)) == i;
    }
  }

  lemma {:induction false} FindingsMatchIndices(cfg: RejectConfig, tools: seq<Json>)
    ensures var d, f := DroppedIndices(cfg, tools), ToolFindings(cfg, tools);
            |f| == |d| && forall k :: 0 <= k < |f| ==> f[k] == Finding(ToolType(tools[d[k]]).s, ToolParam(d[k]))
  {
    if tools != [] {
      FindingsMatchIndices(cfg, Init(tools));
      var d := DroppedIndices(cfg, Init(tools));
      assert forall k :: 0 <= k < |d| ==> Init(tools)[d[k]] == tools[d[k]];
    }
  }

  /** Strip reports exactly the dropped tools, by their original indices in ascending order, with their types. */
  lemma {:induction false} ToolReport(cfg: RejectConfig, tools: seq<Json>)
    ensures var d, f := DroppedIndices(cfg, tools), ToolFindings(cfg, tools);
            && Ascending(d)
            && (forall i: nat :: i in d <==> i < |tools| && Dropped(cfg, tools[i]))
            && |f| == |d| && (forall k :: 0 <= k < |f| ==> f[k] == Finding(ToolType(tools[d[k]]).s, ToolParam(d[k])))
  {
    IndicesAscend(cfg, tools);
    FindingsMatchIndices(cfg, tools);
    forall i: nat | i < |tools| && Dropped(cfg, tools[i]) ensures i in DroppedIndices(cfg, tools) {
      DroppedIsReported(cfg, tools, i);
    }
  }

  lemma {:induction false} SurvivorsStay(cfg: RejectConfig, tools: seq<Json>)
    ensures DroppedIndices(cfg, Surviving(cfg, tools)) == []
  {
    if tools != [] {
      var rest := Surviving(cfg, Init(tools));
      SurvivorsStay(cfg, Init(tools));
      if Dropped(cfg, Last(tools)) {
        assert rest + [] == rest;
      } else {
        assert Init(rest + [Last(tools)]) == rest;
      }
    }
  }

  lemma {:induction false} SurvivorsHash(cfg: RejectConfig, tools: seq<Json>)
    requires !AnyUnhashable(tools)
    ensures !AnyUnhashable(Surviving(cfg, tools))
  {
    if tools != [] {
      var rest := Init(tools);
      assert !AnyUnhashable(rest) by {
        assert forall k :: 0 <= k < |rest| ==> rest[k] == tools[k];
      }
      SurvivorsHash(cfg, rest);
      assert !Unhashable(Last(tools));
    }
  }

  // ---------- Python's equality ----------

  /** The same value with every boolean, at any depth, replaced by the number it equals in Python. */
  function Numeric(j: Json): Json {
    match j
    case Bool(b) => Num(if b then 1 else 0)
    case Arr(elems) => Arr(seq(|elems|, k requires 0 <= k < |elems| => Numeric(elems[k])))
    case Obj(fields) => Obj(map k | k in fields :: Numeric(fields[k]))
    case _ => j
  }

  /** Two decoded values are equal to Python exactly when they are the same numerically. */
  lemma {:induction false} PyEqIsNumericEquality(a: Json, b: Json)
    ensures PyEq(a, b) <==> Numeric(a) == Numeric(b)
    decreases a
  {
    if a.Arr? && b.Arr? && |a.elems| == |b.elems| {
      forall k | 0 <= k < |a.elems| ensures PyEq(a.elems[k], b.elems[k]) <==> Numeric(a.elems[k]) == Numeric(b.elems[k]) {
        PyEqIsNumericEquality(a.elems[k], b.elems[k]);
      }
      assert forall k :: 0 <= k < |a.elems| ==> Numeric(a).elems[k] == Numeric(a.elems[k]) && Numeric(b).elems[k] == Numeric(b.elems[k]);
      if PyEq(a, b) {
        assert Numeric(a).elems == Numeric(b).elems;
      }
    } else if a.Arr? && b.Arr? {
      assert |Numeric(a).elems| != |Numeric(b).elems|;
    } else if a.Obj? && b.Obj? {
      assert Numeric(a).fields.Keys == a.fields.Keys && Numeric(b).fields.Keys == b.fields.Keys;
      if a.fields.Keys == b.fields.Keys {
        forall k | k in a.fields ensures PyEq(a.fields[k], b.fields[k]) <==> Numeric(a.fields[k]) == Numeric(b.fields[k]) {
          PyEqIsNumericEquality(a.fields[k], b.fields[k]);
        }
        assert forall k :: k in a.fields ==> Numeric(a).fields[k] == Numeric(a.fields[k]) && Numeric(b).fields[k] == Numeric(b.fields[k]);
        if PyEq(a, b) {
          assert Numeric(a).fields == Numeric(b).fields;
        }
      }
    }
  }

  // ---------- A second look ----------

  /** Nothing was added or changed. */
  predicate Within(after: Fields, before: Fields) {
    forall k :: k in after ==> k in before && after[k] == before[k]
  }

  predicate NoNullRejected(cfg: RejectConfig) {
    forall i :: 0 <= i < |cfg.fields| ==> cfg.fields[i].1 != Null
  }

  predicate QuietFields(fields: seq<(string, Json)>, r: Fields) {
    forall i :: 0 <= i < |fields| ==> !Hit(fields[i].1, Get(r, fields[i].0))
  }

  predicate QuietPresent(names: seq<string>, r: Fields) {
    forall i :: 0 <= i < |names| ==> !Present(r, names[i])
  }

  predicate QuietTools(cfg: RejectConfig, r: Fields) {
    ToolsOf(r).Arr? ==>
      var tools := ToolsOf(r).elems;
      !AnyUnhashable(tools) && DroppedIndices(cfg, tools) == [] && WithTools(r, tools) == r
  }

  lemma {:induction false} QuietFieldsReportNothing(fields: seq<(string, Json)>, r: Fields)
    requires QuietFields(fields, r)
    ensures StripFields(fields, r) == (r, []) && RejectFields(fields, r) == None
  {
    if fields != [] {
      assert forall i :: 0 <= i < |fields[1..]| ==> fields[1..][i] == fields[i + 1];
      QuietFieldsReportNothing(fields[1..], r);
    }
  }

  lemma {:induction false} QuietPresentReportsNothing(names: seq<string>, r: Fields)
    requires QuietPresent(names, r)
    ensures StripPresent(names, r) == (r, []) && RejectPresent(names, r) == None
  {
    if names != [] {
      assert forall i :: 0 <= i < |names[1..]| ==> names[1..][i] == names[i + 1];
      QuietPresentReportsNothing(names[1..], r);
    }
  }

  lemma {:induction false} MissIsStable(rejected: Json, name: string, after: Fields, before: Fields)
    requires rejected != Null && !Hit(rejected, Get(before, name)) && Within(after, before)
    ensures !Hit(rejected, Get(after, name))
  {
  }

  /** Every rejected value but null is gone. */
  predicate QuietButNulls(fields: seq<(string, Json)>, r: Fields) {
    forall i :: 0 <= i < |fields| && fields[i].1 != Null ==> !Hit(fields[i].1, Get(r, fields[i].0))
  }

  lemma {:induction false} StrippedFieldsAreQuiet(fields: seq<(string, Json)>, r: Fields)
    ensures QuietButNulls(fields, StripFields(fields, r).0) && Within(StripFields(fields, r).0, r)
  {
    if fields != [] {
      var (name, rejected) := fields[0];
      var rest := fields[1..];
      var hit := Hit(rejected, Get(r, name));
      var next := if hit then r - {name} else r;
      var after := StripFields(rest, next).0;
      assert StripFields(fields, r).0 == after;
      StrippedFieldsAreQuiet(rest, next);
      if rejected != Null {
        MissIsStable(rejected, name, after, next);
      }
      assert forall i :: 0 < i < |fields| ==> fields[i] == rest[i - 1];
    }
  }

  lemma {:induction false} StrippedPresentIsQuiet(names: seq<string>, r: Fields)
    ensures QuietPresent(names, StripPresent(names, r).0) && Within(StripPresent(names, r).0, r)
  {
    if names != [] {
      var rest := names[1..];
      var next := if Present(r, names[0]) then r - {names[0]} else r;
      StrippedPresentIsQuiet(rest, next);
      assert forall i :: 0 < i < |names| ==> names[i] == rest[i - 1];
    }
  }

  lemma {:induction false} StrippedToolsAreQuiet(cfg: RejectConfig, r: Fields, after: Fields)
    requires StripTools(cfg, r).Ok? && Within(after, StripTools(cfg, r).value.0)
    ensures QuietTools(cfg, after)
  {
    if "tools" !in after {
      QuietWithoutTools(cfg, after);
    } else if ToolsOf(r).Arr? {
      var tools := ToolsOf(r).elems;
      SurvivorsHash(cfg, tools);
      SurvivorsStay(cfg, tools);
      QuietWithTools(cfg, after, Surviving(cfg, tools));
    }
  }

  lemma {:induction false} QuietWithoutTools(cfg: RejectConfig, after: Fields)
    requires "tools" !in after
    ensures QuietTools(cfg, after)
  {
  }

  lemma {:induction false} QuietWithTools(cfg: RejectConfig, after: Fields, left: seq<Json>)
    requires "tools" in after && after["tools"] == Arr(left) && left != []
    requires !AnyUnhashable(left) && DroppedIndices(cfg, left) == []
    ensures QuietTools(cfg, after)
  {
  }

  lemma {:induction false} QuietReportsNothing(cfg: RejectConfig, r: Fields)
    requires QuietTools(cfg, r) && QuietButNulls(cfg.fields, r) && QuietPresent(cfg.presentFields, r)
    requires NullsAreFilled(cfg, r)
    ensures Strip(cfg, r) == (r, Passed([]))
  {
    assert QuietFields(cfg.fields, r);
    QuietFieldsReportNothing(cfg.fields, r);
    QuietPresentReportsNothing(cfg.presentFields, r);
    if ToolsOf(r).Arr? {
      NothingDropped(cfg, ToolsOf(r).elems);
    }
    var none: seq<Finding> := [];
    assert none + none + none == none;
  }

  /** What a strip leaves is quiet, null rejected values aside. */
  lemma {:induction false} StrippedIsQuiet(cfg: RejectConfig, r: Fields)
    requires Strip(cfg, r).1.Passed?
    ensures var after := Strip(cfg, r).0;
            QuietTools(cfg, after) && QuietButNulls(cfg.fields, after) && QuietPresent(cfg.presentFields, after)
  {
    var r1 := StripTools(cfg, r).value.0;
    var r2 := StripFields(cfg.fields, r1).0;
    var r3 := StripPresent(cfg.presentFields, r2).0;
    StrippedFieldsAreQuiet(cfg.fields, r1);
    StrippedPresentIsQuiet(cfg.presentFields, r2);
    StrippedToolsAreQuiet(cfg, r, r3);
    forall i | 0 <= i < |cfg.fields| && cfg.fields[i].1 != Null ensures !Hit(cfg.fields[i].1, Get(r3, cfg.fields[i].0)) {
      MissIsStable(cfg.fields[i].1, cfg.fields[i].0, r3, r2);
    }
  }

  /** Strip, run again on what it left, reports nothing and changes nothing. */
  ghost predicate StripSettles(cfg: RejectConfig, r: Fields) {
    Strip(cfg, r).1.Passed? ==> Strip(cfg, Strip(cfg, r).0) == (Strip(cfg, r).0, Passed([]))
  }

  /** Each field whose null is rejected holds something else. */
  predicate NullsAreFilled(cfg: RejectConfig, r: Fields) {
    forall i :: 0 <= i < |cfg.fields| && cfg.fields[i].1 == Null ==> Get(r, cfg.fields[i].0) != Null
  }

  lemma {:induction false} SilentFieldsAreQuiet(fields: seq<(string, Json)>, r: Fields)
    requires StripFields(fields, r).1 == []
    ensures QuietFields(fields, r)
  {
    if fields != [] {
      SilentFieldsAreQuiet(fields[1..], r);
      assert forall i :: 0 < i < |fields| ==> fields[i] == fields[1..][i - 1];
    }
  }

  /** A second strip is silent exactly when the first left something in every field whose null is rejected. */
  lemma {:induction false} SilentAgainIff(cfg: RejectConfig, r: Fields)
    requires Strip(cfg, r).1.Passed?
    ensures var after := Strip(cfg, r).0;
            && (NullsAreFilled(cfg, after) ==> Strip(cfg, after) == (after, Passed([])))
            && (Strip(cfg, after).1 == Passed([]) ==> NullsAreFilled(cfg, after))
  {
    var after := Strip(cfg, r).0;
    StrippedIsQuiet(cfg, r);
    if NullsAreFilled(cfg, after) {
      QuietReportsNothing(cfg, after);
    } else if Strip(cfg, after).1 == Passed([]) {
      QuietToolsStay(cfg, after);
      SilentFieldsAreQuiet(cfg.fields, after);
    }
  }

  lemma {:induction false} QuietToolsStay(cfg: RejectConfig, r: Fields)
    requires QuietTools(cfg, r)
    ensures StripTools(cfg, r) == Ok((r, []))
  {
    if ToolsOf(r).Arr? {
      NothingDropped(cfg, ToolsOf(r).elems);
    }
  }

  // ---------- Null rejected values, request by request ----------

  predicate DistinctNames(fields: seq<(string, Json)>) {
    forall i, j :: 0 <= i < j < |fields| ==> fields[i].0 != fields[j].0
  }

  /** Something is left of the field once the tools have been looked at and mere presence has been stripped. */
  predicate Endures(cfg: RejectConfig, r: Fields, name: string) {
    && name !in cfg.presentFields
    && if name == "tools" && ToolsOf(r).Arr? then exists k :: 0 <= k < |ToolsOf(r).elems| && !Dropped(cfg, ToolsOf(r).elems[k])
       else Get(r, name) != Null
  }

  predicate NullsEndure(cfg: RejectConfig, r: Fields) {
    forall i :: 0 <= i < |cfg.fields| && cfg.fields[i].1 == Null ==> Endures(cfg, r, cfg.fields[i].0)
  }

  lemma {:induction false} SomeSurviveIff(cfg: RejectConfig, tools: seq<Json>)
    ensures Surviving(cfg, tools) != [] <==> exists k :: 0 <= k < |tools| && !Dropped(cfg, tools[k])
  {
    if tools != [] {
      SomeSurviveIff(cfg, Init(tools));
      assert forall k :: 0 <= k < |Init(tools)| ==> Init(tools)[k] == tools[k];
      if Surviving(cfg, Init(tools)) == [] && Dropped(cfg, Last(tools)) {
        assert Dropped(cfg, tools[|tools| - 1]);
        assert forall k :: 0 <= k < |tools| - 1 ==> Dropped(cfg, Init(tools)[k]);
      } else if !Dropped(cfg, Last(tools)) {
        assert !Dropped(cfg, tools[|tools| - 1]);
      }
    }
  }

  lemma {:induction false} ToolsLeaveOthers(cfg: RejectConfig, r: Fields, name: string)
    requires StripTools(cfg, r).Ok?
    ensures var r1 := StripTools(cfg, r).value.0;
            Get(r1, name) != Null <==>
            if name == "tools" && ToolsOf(r).Arr? then Surviving(cfg, ToolsOf(r).elems) != [] else Get(r, name) != Null
  {
  }

  /** A field that no entry names is left alone; one that only a null names keeps anything but null. */
  lemma {:induction false} FieldsKeep(fields: seq<(string, Json)>, r: Fields, name: string)
    requires forall i :: 0 <= i < |fields| && fields[i].0 == name ==> fields[i].1 == Null
    ensures Get(StripFields(fields, r).0, name) == Get(r, name)
  {
    if fields != [] {
      var next := if Hit(fields[0].1, Get(r, fields[0].0)) then r - {fields[0].0} else r;
      assert forall i :: 0 <= i < |fields[1..]| ==> fields[1..][i] == fields[i + 1];
      assert StripFields(fields, r).0 == StripFields(fields[1..], next).0;
      FieldsKeep(fields[1..], next, name);
    }
  }

  lemma {:induction false} PresentKeeps(names: seq<string>, r: Fields, name: string)
    ensures Get(StripPresent(names, r).0, name) == if name in names then Null else Get(r, name)
  {
    if names != [] {
      PresentKeeps(names[1..], if Present(r, names[0]) then r - {names[0]} else r, name);
    }
  }

  /** What a strip leaves in a field whose null is rejected can be told from the request. */
  lemma {:induction false} FilledIffEnduring(cfg: RejectConfig, r: Fields, k: nat)
    requires DistinctNames(cfg.fields) && k < |cfg.fields| && cfg.fields[k].1 == Null && Strip(cfg, r).1.Passed?
    ensures Get(Strip(cfg, r).0, cfg.fields[k].0) != Null <==> Endures(cfg, r, cfg.fields[k].0)
  {
    var name := cfg.fields[k].0;
    var r1 := StripTools(cfg, r).value.0;
    ToolsLeaveOthers(cfg, r, name);
    if ToolsOf(r).Arr? {
      SomeSurviveIff(cfg, ToolsOf(r).elems);
    }
    FieldsKeep(cfg.fields, r1, name);
    PresentKeeps(cfg.presentFields, StripFields(cfg.fields, r1).0, name);
  }

  lemma {:induction false} FilledIffAllEndure(cfg: RejectConfig, r: Fields)
    requires DistinctNames(cfg.fields) && Strip(cfg, r).1.Passed?
    ensures NullsAreFilled(cfg, Strip(cfg, r).0) <==> NullsEndure(cfg, r)
  {
    forall k | 0 <= k < |cfg.fields| && cfg.fields[k].1 == Null
      ensures Get(Strip(cfg, r).0, cfg.fields[k].0) != Null <==> Endures(cfg, r, cfg.fields[k].0)
    {
      FilledIffEnduring(cfg, r, k);
    }
  }

  /** Some tool's type cannot be looked up. */
  predicate BadToolTypes(r: Fields) {
    ToolsOf(r).Arr? && AnyUnhashable(ToolsOf(r).elems)
  }

  /** For one request whose tool types can be looked up: a second strip is silent exactly when something endures in every field
      whose null is rejected. */
  lemma {:induction false} StripSettlesIff(cfg: RejectConfig, r: Fields)
    requires DistinctNames(cfg.fields) && !BadToolTypes(r)
    ensures StripSettles(cfg, r) <==> NullsEndure(cfg, r)
  {
    SilentAgainIff(cfg, r);
    FilledIffAllEndure(cfg, r);
  }

  // ---------- Null rejected values, over all requests ----------

  lemma {:induction false} NullHitsMissing(fields: seq<(string, Json)>, k: nat)
    requires k < |fields| && fields[k].1 == Null
    ensures StripFields(fields, map[]).0 == map[] && StripFields(fields, map[]).1 != []
  {
    MissingStaysMissing(fields);
    if k > 0 {
      NullHitsMissing(fields[1..], k - 1);
    }
    if Hit(fields[0].1, Null) {
      RemoveFromNothing(fields[0].0);
    }
  }

  lemma {:induction false} RemoveFromNothing(name: string)
    ensures var nothing: Fields := map[]; nothing - {name} == nothing
  {
  }

  lemma {:induction false} MissingStaysMissing(fields: seq<(string, Json)>)
    ensures StripFields(fields, map[]).0 == map[]
  {
    if fields != [] {
      RemoveFromNothing(fields[0].0);
      MissingStaysMissing(fields[1..]);
    }
  }

  lemma {:induction false} PresentInNothing(names: seq<string>)
    ensures StripPresent(names, map[]) == (map[], [])
  {
    QuietPresentReportsNothing(names, map[]);
  }

  /** A second strip is silent for every request exactly when no rejected value is null: a null one matches a missing
      field, over and over. */
  lemma {:induction false} StripSettlesIffNoNull(cfg: RejectConfig)
    ensures (forall r :: StripSettles(cfg, r)) <==> NoNullRejected(cfg)
  {
    if NoNullRejected(cfg) {
      forall r ensures StripSettles(cfg, r) {
        if Strip(cfg, r).1.Passed? {
          SilentAgainIff(cfg, r);
        }
      }
    } else {
      var k :| 0 <= k < |cfg.fields| && cfg.fields[k].1 == Null;
      NullHitsMissing(cfg.fields, k);
      PresentInNothing(cfg.presentFields);
      RemoveFromNothing("tools");
      assert StripTools(cfg, map[]) == Ok((map[], []));
      assert !StripSettles(cfg, map[]);
    }
  }

  /** The empty request: each strip reports the missing field, and leaves the same request to the next. */
  lemma {:induction false} NullIsReportedForEver(cfg: RejectConfig, name: string)
    requires cfg.fields == [(name, Null)] && cfg.presentFields == []
    ensures Strip(cfg, map[]) == (map[], Passed([Finding(name, FieldParam(name))]))
  {
    var nothing: Fields := map[];
    RemoveFromNothing("tools");
    RemoveFromNothing(name);
    assert StripTools(cfg, nothing) == Ok((nothing, []));
    var none: seq<Finding> := [];
    assert cfg.fields[1..] == [] && StripFields(cfg.fields[1..], nothing) == (nothing, none);
    assert Hit(Null, Get(nothing, name));
    assert [Finding(name, FieldParam(name))] + none == [Finding(name, FieldParam(name))];
    assert StripFields(cfg.fields, nothing) == (nothing, [Finding(name, FieldParam(name))]);
    assert StripPresent(cfg.presentFields, nothing) == (nothing, none);
    assert none + [Finding(name, FieldParam(name))] + none == [Finding(name, FieldParam(name))];
  }

  // ---------- The two modes agree ----------

  /** The two modes of one configuration, its allow list as configured. */
  function Stripping(cfg: RejectConfig): RejectConfig {
    cfg.(strip := true)
  }

  function Rejecting(cfg: RejectConfig): RejectConfig {
    cfg.(strip := false)
  }

  function First(found: seq<Finding>): Option<Finding> {
    if found == [] then None else Some(found[0])
  }

  lemma {:induction false} FieldsAgree(fields: seq<(string, Json)>, r: Fields)
    ensures RejectFields(fields, r) == First(StripFields(fields, r).1)
    ensures StripFields(fields, r).1 == [] ==> StripFields(fields, r).0 == r
  {
    if fields != [] {
      FieldsAgree(fields[1..], r);
    }
  }

  lemma {:induction false} PresentAgrees(names: seq<string>, r: Fields)
    ensures RejectPresent(names, r) == First(StripPresent(names, r).1)
  {
    if names != [] {
      PresentAgrees(names[1..], r);
    }
  }

  /** The first tool dropped is the first one reported. */
  lemma {:induction false} FirstDropped(cfg: RejectConfig, tools: seq<Json>) returns (i: nat)
    requires DroppedIndices(cfg, tools) != []
    ensures i < |tools| && Dropped(cfg, tools[i]) && forall j :: 0 <= j < i ==> !Dropped(cfg, tools[j])
    ensures ToolFindings(cfg, tools) != [] && ToolFindings(cfg, tools)[0] == Finding(ToolType(tools[i]).s, ToolParam(i))
  {
    var d := DroppedIndices(cfg, tools);
    ToolReport(cfg, tools);
    i := d[0];
    assert forall m :: 0 <= m < |d| ==> i <= d[m];
    assert forall j: nat :: j < i ==> j !in d;
  }

  /** Dropped by strip mode, but only because the allow list misses it. */
  predicate OnlyMissed(cfg: RejectConfig, tool: Json) {
    Dropped(Stripping(cfg), tool) && !Denied(cfg, tool)
  }

  /** Some tool is missed by the allow list alone, and no denied tool stands before it. */
  predicate MissedFirst(cfg: RejectConfig, tools: seq<Json>) {
    exists i :: 0 <= i < |tools| && OnlyMissed(cfg, tools[i]) && forall j :: 0 <= j < i ==> !Denied(cfg, tools[j])
  }

  predicate AllowListFirst(cfg: RejectConfig, r: Fields) {
    ToolsOf(r).Arr? && !AnyUnhashable(ToolsOf(r).elems) && MissedFirst(cfg, ToolsOf(r).elems)
  }

  lemma {:induction false} NothingDenied(cfg: RejectConfig, tools: seq<Json>)
    requires forall j :: 0 <= j < |tools| ==> !Denied(cfg, tools[j])
    ensures FirstDenied(Rejecting(cfg), tools) == None
  {
    FirstDeniedFacts(Rejecting(cfg), tools);
  }

  /** What strip mode reports first of the tools is what reject mode stops at, unless the allow list comes first. */
  lemma {:induction false} ToolsAgree(cfg: RejectConfig, tools: seq<Json>)
    ensures DroppedIndices(Stripping(cfg), tools) == [] ==> !MissedFirst(cfg, tools) && FirstDenied(Rejecting(cfg), tools) == None
    ensures DroppedIndices(Stripping(cfg), tools) != [] ==>
              var d := FirstDenied(Rejecting(cfg), tools);
              if MissedFirst(cfg, tools)
              then exists i :: 0 <= i < |tools| && Dropped(Stripping(cfg), tools[i]) && d != Some(i)
                               && First(ToolFindings(Stripping(cfg), tools)) == Some(Finding(ToolType(tools[i]).s, ToolParam(i)))
              else d.Some? && First(ToolFindings(Stripping(cfg), tools)) == Some(Finding(ToolType(tools[d.value]).s, ToolParam(d.value)))
  {
    var strip := Stripping(cfg);
    if DroppedIndices(strip, tools) == [] {
      forall j | 0 <= j < |tools| ensures !Dropped(strip, tools[j]) {
        if Dropped(strip, tools[j]) {
          DroppedIsReported(strip, tools, j);
        }
      }
      NothingDenied(cfg, tools);
    } else {
      var i := FirstDropped(strip, tools);
      if Denied(cfg, tools[i]) {
        FirstDeniedIs(cfg, tools, i);
      } else {
        FirstDeniedFacts(Rejecting(cfg), tools);
        assert OnlyMissed(cfg, tools[i]);
        assert FirstDenied(Rejecting(cfg), tools) != Some(i);
      }
    }
  }

  lemma {:induction false} FirstDeniedIs(cfg: RejectConfig, tools: seq<Json>, i: nat)
    requires i < |tools| && Denied(cfg, tools[i]) && forall j :: 0 <= j < i ==> !Dropped(Stripping(cfg), tools[j])
    ensures FirstDenied(Rejecting(cfg), tools) == Some(i) && !MissedFirst(cfg, tools)
  {
    assert forall j :: 0 <= j < i ==> tools[..i][j] == tools[j] && !Denied(cfg, tools[j]);
    NothingDenied(cfg, tools[..i]);
    DeniedStops(Rejecting(cfg), tools, i);
  }

  lemma {:induction false} FieldFinding(fields: seq<(string, Json)>, r: Fields)
    ensures RejectFields(fields, r).Some? ==> RejectFields(fields, r).value.param.FieldParam?
  {
    if fields != [] {
      FieldFinding(fields[1..], r);
    }
  }

  lemma {:induction false} PresentFinding(names: seq<string>, r: Fields)
    ensures RejectPresent(names, r).Some? ==> RejectPresent(names, r).value.param.FieldParam?
  {
    if names != [] {
      PresentFinding(names[1..], r);
    }
  }

  lemma {:induction false} FirstOfThree(a: seq<Finding>, b: seq<Finding>, c: seq<Finding>)
    ensures First(a + b + c) == if a != [] then First(a) else if b != [] then First(b) else First(c)
  {
  }

  /** With tool types that can be looked up, and tools none of which the allow list misses first: reject mode rejects
      exactly when strip mode reports something, and with the first thing it reports. */
  lemma {:induction false} RejectStopsAtFirstReport(cfg: RejectConfig, r: Fields)
    requires !BadToolTypes(r) && !AllowListFirst(cfg, r)
    ensures Strip(Stripping(cfg), r).1.Passed?
    ensures Reject(Rejecting(cfg), r).1 == AsOutcome(First(Strip(Stripping(cfg), r).1.stripped))
  {
    var strip := Stripping(cfg);
    var (r1, found1) := StripTools(strip, r).value;
    var (r2, found2) := StripFields(cfg.fields, r1);
    var found3 := StripPresent(cfg.presentFields, r2).1;
    FieldsAgree(cfg.fields, r1);
    PresentAgrees(cfg.presentFields, r2);
    FirstOfThree(found1, found2, found3);
    if ToolsOf(r).Arr? {
      var tools := ToolsOf(r).elems;
      ToolsAgree(cfg, tools);
      FindingsMatchIndices(strip, tools);
      if DroppedIndices(strip, tools) == [] {
        NothingDropped(strip, tools);
      }
      PrefixHashes(cfg, tools);
    }
  }

  lemma {:induction false} PrefixHashes(cfg: RejectConfig, tools: seq<Json>)
    requires !AnyUnhashable(tools)
    ensures forall n :: 0 <= n <= |tools| ==> !AnyUnhashable(tools[..n])
  {
    forall n | 0 <= n <= |tools| ensures !AnyUnhashable(tools[..n]) {
      assert forall k :: 0 <= k < n ==> tools[..n][k] == tools[k];
    }
  }

  /** When the allow list comes first, strip mode's first entry is a tool that reject mode does not stop at. */
  lemma {:induction false} AllowListParts(cfg: RejectConfig, r: Fields)
    requires AllowListFirst(cfg, r)
    ensures Strip(Stripping(cfg), r).1.Passed?
    ensures Reject(Rejecting(cfg), r).1 != AsOutcome(First(Strip(Stripping(cfg), r).1.stripped))
  {
    var strip, tools := Stripping(cfg), ToolsOf(r).elems;
    var (r1, found1) := StripTools(strip, r).value;
    var (r2, found2) := StripFields(cfg.fields, r1);
    FirstOfThree(found1, found2, StripPresent(cfg.presentFields, r2).1);
    ToolsAgree(cfg, tools);
    FindingsMatchIndices(strip, tools);
    FirstDeniedFacts(Rejecting(cfg), tools);
    FieldFinding(cfg.fields, WithTools(r, tools));
    PresentFinding(cfg.presentFields, WithTools(r, tools));
  }

  /** The two modes tell the same: the first report is the rejection, no report is none, and both or neither fail. */
  predicate ModesAgree(cfg: RejectConfig, r: Fields) {
    match Strip(Stripping(cfg), r).1
    case Passed(found) => Reject(Rejecting(cfg), r).1 == AsOutcome(First(found))
    case other => Reject(Rejecting(cfg), r).1 == other
  }

  /** A denied tool stands before every tool type that cannot be looked up, and there is such a type. */
  predicate DeniedBeforeBad(cfg: RejectConfig, r: Fields) {
    ToolsOf(r).Arr? &&
    var tools := ToolsOf(r).elems;
    exists i, j :: 0 <= i < j < |tools| && Denied(cfg, tools[i]) && Unhashable(tools[j]) && !AnyUnhashable(tools[..i])
  }

  lemma {:induction false} FirstDeniedIff(cfg: RejectConfig, r: Fields)
    requires ToolsOf(r).Arr? && AnyUnhashable(ToolsOf(r).elems)
    ensures DeniedBeforeBad(cfg, r) <==>
            var first := FirstDenied(Rejecting(cfg), ToolsOf(r).elems);
            first.Some? && !AnyUnhashable(ToolsOf(r).elems[..first.value])
  {
    var tools, bad := ToolsOf(r).elems, Rejecting(cfg);
    FirstDeniedFacts(bad, tools);
    assert forall k :: 0 <= k < |tools| ==> Denied(bad, tools[k]) == Denied(cfg, tools[k]);
    var first := FirstDenied(bad, tools);
    if DeniedBeforeBad(cfg, r) {
      var i, j :| 0 <= i < j < |tools| && Denied(cfg, tools[i]) && Unhashable(tools[j]) && !AnyUnhashable(tools[..i]);
      var f := first.value;
      assert forall k :: 0 <= k < f ==> tools[..f][k] == tools[..i][k];
    } else if first.Some? && !AnyUnhashable(tools[..first.value]) {
      BadComesLater(cfg, r, first.value);
    }
  }

  lemma {:induction false} BadComesLater(cfg: RejectConfig, r: Fields, i: nat)
    requires ToolsOf(r).Arr? && AnyUnhashable(ToolsOf(r).elems)
    requires i < |ToolsOf(r).elems| && Denied(cfg, ToolsOf(r).elems[i]) && !AnyUnhashable(ToolsOf(r).elems[..i])
    ensures DeniedBeforeBad(cfg, r)
  {
    var tools := ToolsOf(r).elems;
    var j :| 0 <= j < |tools| && Unhashable(tools[j]);
    assert forall k :: 0 <= k < i ==> tools[..i][k] == tools[k] && !Unhashable(tools[..i][k]);
    assert i < j;
  }

  /** As configured, the modes agree on a request exactly when no denied tool stands before a bad tool type, and the
      allow list misses no tool before a denied one. */
  lemma {:induction false} ModesAgreeIff(cfg: RejectConfig, r: Fields)
    ensures ModesAgree(cfg, r) <==> !DeniedBeforeBad(cfg, r) && !AllowListFirst(cfg, r)
  {
    if BadToolTypes(r) {
      FirstDeniedIff(cfg, r);
    } else {
      NoBadTools(cfg, r);
      if AllowListFirst(cfg, r) {
        AllowListParts(cfg, r);
      } else {
        RejectStopsAtFirstReport(cfg, r);
      }
    }
  }

  lemma {:induction false} NoBadTools(cfg: RejectConfig, r: Fields)
    requires !BadToolTypes(r)
    ensures !DeniedBeforeBad(cfg, r)
  {
  }

  /** With the allow list off, only the bad tool types are left. */
  lemma {:induction false} AllowListOff(cfg: RejectConfig, r: Fields)
    requires cfg.allowedToolTypes == []
    ensures ModesAgree(cfg, r) <==> !DeniedBeforeBad(cfg, r)
  {
    ModesAgreeIff(cfg, r);
  }

  /** Reject mode accepts what strip mode, as configured, left exactly when something endures in every field whose null is
      rejected. */
  lemma {:induction false} RejectAcceptsStrippedIff(cfg: RejectConfig, r: Fields)
    requires DistinctNames(cfg.fields) && !BadToolTypes(r)
    ensures Reject(Rejecting(cfg), Strip(Stripping(cfg), r).0).1 == Passed([]) <==> NullsEndure(Stripping(cfg), r)
  {
    var strip := Stripping(cfg);
    var after := Strip(strip, r).0;
    SilentAgainIff(strip, r);
    FilledIffAllEndure(strip, r);
    StrippedIsQuiet(strip, r);
    QuietToolsStay(strip, after);
    if ToolsOf(after).Arr? {
      ToolsAgree(cfg, ToolsOf(after).elems);
    }
    RejectStopsAtFirstReport(cfg, after);
  }

  /** A request on which the modes part because the allow list applies to one of them only. */
  lemma {:induction false} ModesPartOnAllowList(cfg: RejectConfig, r: Fields)
    requires cfg.tools == ["web_search"] && cfg.allowedToolTypes == ["function"] && cfg.fields == [] && cfg.presentFields == []
    requires r == map["tools" := Arr([Obj(map["type" := Str("namespace")])])]
    ensures Strip(Stripping(cfg), r).1.Passed? && Strip(Stripping(cfg), r).1.stripped != []
    ensures Reject(Rejecting(cfg), r).1 == Passed([])
  {
    var strip, tools := Stripping(cfg), r["tools"].elems;
    assert !Unhashable(tools[0]) && Dropped(strip, tools[0]) && !Denied(cfg, tools[0]);
    DroppedIsReported(strip, tools, 0);
    FindingsMatchIndices(strip, tools);
    NothingDenied(cfg, tools);
    assert ToolsOf(r) == Arr(tools) && !AnyUnhashable(tools);
  }

  /** A request on which the modes part: reject mode rejects the denied tool, strip mode fails on the later type. */
  lemma {:induction false} ModesPartOnBadToolTypes(cfg: RejectConfig, r: Fields)
    requires cfg.tools == ["web_search"]
    requires r == map["tools" := Arr([Obj(map["type" := Str("web_search")]), Obj(map["type" := Arr([])])])]
    ensures Strip(Stripping(cfg), r).1 == BadToolType
    ensures Reject(Rejecting(cfg), r).1 == Rejected(Finding("web_search", ToolParam(0)))
  {
    var bad, tools := Rejecting(cfg), r["tools"].elems;
    assert Unhashable(tools[1]);
    assert Denied(bad, tools[0]) && tools[..0] == [];
    DeniedStops(bad, tools, 0);
  }
}
