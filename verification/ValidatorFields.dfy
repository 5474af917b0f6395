/** What each mode of the validator finds and leaves, entry by entry. */
module ValidatorFields {
  import opened JsonValues
  import opened Validator
  import opened ValidatorTheorems

  // ---------- Tools ----------

  predicate OfToolType(tool: Json, types: seq<string>) {
    tool.Obj? && "type" in tool.fields && tool.fields["type"].Str? && tool.fields["type"].s in types
  }

  predicate TypedByText(tool: Json) {
    tool.Obj? && "type" in tool.fields && tool.fields["type"].Str?
  }

  /** Strip mode drops a tool of a denied type, and one whose type an allow list, if there is any, does not have. */
  predicate Goes(cfg: RejectConfig, tool: Json) {
    OfToolType(tool, cfg.tools) || (cfg.allowedToolTypes != [] && TypedByText(tool) && !OfToolType(tool, cfg.allowedToolTypes))
  }

  /** A type that is a list or a mapping cannot be looked up in a set. */
  predicate CannotBeLookedUp(tool: Json) {
    tool.Obj? && "type" in tool.fields && (tool.fields["type"].Arr? || tool.fields["type"].Obj?)
  }

  /** The request's tools: none when the field is missing or false to Python; not a list when it is anything else. */
  predicate HasTools(r: Fields, tools: seq<Json>) {
    if "tools" !in r || r["tools"] in [Null, Bool(false), Num(0), Str(""), Arr([]), Obj(map[])] then tools == []
    else r["tools"] == Arr(tools)
  }

  predicate OddTools(r: Fields) {
    "tools" in r && r["tools"] !in [Null, Bool(false), Num(0), Str(""), Arr([]), Obj(map[])] && !r["tools"].Arr?
  }

  lemma {:induction false} ToolVerdicts(cfg: RejectConfig, tool: Json)
    ensures Dropped(Stripping(cfg), tool) <==> Goes(cfg, tool)
    ensures Denied(cfg, tool) <==> OfToolType(tool, cfg.tools)
    ensures Unhashable(tool) <==> CannotBeLookedUp(tool)
  {
  }

  lemma {:induction false} ToolsAreRead(r: Fields, tools: seq<Json>)
    requires !OddTools(r) && HasTools(r, tools)
    ensures ToolsOf(r) == Arr(tools)
  {
  }

  predicate AreKept(left: seq<Json>, idx: seq<nat>, tools: seq<Json>) {
    |left| == |idx| && forall k :: 0 <= k < |idx| ==> idx[k] < |tools| && left[k] == tools[idx[k]]
  }

  ghost predicate PicksKept(idx: seq<nat>, cfg: RejectConfig, tools: seq<Json>) {
    Ascending(idx) && forall i: nat :: i in idx <==> i < |tools| && !Goes(cfg, tools[i])
  }

  /** The survivors are exactly the tools that do not go, in their order. */
  lemma {:induction false} SurvivorsArePicked(cfg: RejectConfig, tools: seq<Json>) returns (idx: seq<nat>)
    ensures PicksKept(idx, cfg, tools) && AreKept(Surviving(Stripping(cfg), tools), idx, tools)
  {
    idx := [];
    if tools != [] {
      var rest, last := Init(tools), Last(tools);
      idx := SurvivorsArePicked(cfg, rest);
      ToolVerdicts(cfg, last);
      if Goes(cfg, last) {
        assert Surviving(Stripping(cfg), tools) == Surviving(Stripping(cfg), rest);
        KeptStep(cfg, Surviving(Stripping(cfg), rest), idx, tools);
      } else {
        assert Surviving(Stripping(cfg), tools) == Surviving(Stripping(cfg), rest) + [last];
        KeptStep(cfg, Surviving(Stripping(cfg), rest), idx, tools);
        idx := idx + [|rest|];
      }
    }
  }

  lemma {:induction false} KeptStep(cfg: RejectConfig, left: seq<Json>, idx: seq<nat>, tools: seq<Json>)
    requires tools != [] && PicksKept(idx, cfg, Init(tools)) && AreKept(left, idx, Init(tools))
    ensures Goes(cfg, Last(tools)) ==> PicksKept(idx, cfg, tools) && AreKept(left, idx, tools)
    ensures !Goes(cfg, Last(tools)) ==> PicksKept(idx + [|tools| - 1], cfg, tools) && AreKept(left + [Last(tools)], idx + [|tools| - 1], tools)
  {
    assert forall i :: 0 <= i < |tools| - 1 ==> tools[i] == Init(tools)[i];
  }

  predicate ReportsTool(found: Finding, i: nat, tools: seq<Json>) {
    i < |tools| && TypedByText(tools[i]) && found == Finding(tools[i].fields["type"].s, ToolParam(i))
  }

  predicate ReportsTools(found: seq<Finding>, idx: seq<nat>, tools: seq<Json>) {
    |found| == |idx| && forall k :: 0 <= k < |idx| ==> ReportsTool(found[k], idx[k], tools)
  }

  // ---------- Rejected values ----------

  /** What the request says under a name; a missing field reads as null. */
  function Said(r: Fields, name: string): Json {
    if name in r then r[name] else Null
  }

  /** A boolean matches only the same boolean; anything else what Python finds equal. */
  predicate Matches(rejected: Json, actual: Json) {
    match rejected
    case Bool(b) => actual == Bool(b)
    case _ => Numeric(actual) == Numeric(rejected)
  }

  lemma {:induction false} HitIsMatch(rejected: Json, actual: Json)
    ensures Hit(rejected, actual) <==> Matches(rejected, actual)
  {
    PyEqIsNumericEquality(actual, rejected);
  }

  ghost predicate PicksMatches(idx: seq<nat>, fields: seq<(string, Json)>, r: Fields) {
    Ascending(idx) && forall i: nat :: i in idx <==> i < |fields| && Matches(fields[i].1, Said(r, fields[i].0))
  }

  predicate ReportsFields(found: seq<Finding>, idx: seq<nat>, fields: seq<(string, Json)>) {
    |found| == |idx| && forall k :: 0 <= k < |idx| ==> idx[k] < |fields| && found[k] == Finding(fields[idx[k]].0, FieldParam(fields[idx[k]].0))
  }

  /** The report names the field. */
  predicate Reported(found: seq<Finding>, name: string) {
    Finding(name, FieldParam(name)) in found
  }

  /** `after` is `before` without the fields that the report names. */
  ghost predicate LeavesOut(after: Fields, before: Fields, found: seq<Finding>) {
    forall name: string :: (name in after <==> name in before && !Reported(found, name)) && (name in after ==> after[name] == before[name])
  }

  function Shifted(idx: seq<nat>): (r: seq<nat>)
    ensures |r| == |idx| && forall k :: 0 <= k < |idx| ==> r[k] == idx[k] + 1
  {
    seq(|idx|, k requires 0 <= k < |idx| => idx[k] + 1)
  }

  lemma {:induction false} ShiftedMembers(idx: seq<nat>)
    requires Ascending(idx)
    ensures Ascending(Shifted(idx)) && forall i: nat :: i in Shifted(idx) <==> i > 0 && i - 1 in idx
  {
    forall i: nat | i > 0 && i - 1 in idx ensures i in Shifted(idx) {
      var k :| 0 <= k < |idx| && idx[k] == i - 1;
      assert Shifted(idx)[k] == i;
    }
  }

  /** The places found in the rest of a list, and the first one if it was found. */
  function Places(first: bool, later: seq<nat>): seq<nat> {
    if first then [0] + Shifted(later) else Shifted(later)
  }

  lemma {:induction false} PlacesFacts(first: bool, later: seq<nat>)
    requires Ascending(later)
    ensures Ascending(Places(first, later))
    ensures forall i: nat :: i in Places(first, later) <==> (i == 0 && first) || (i > 0 && i - 1 in later)
  {
    ShiftedMembers(later);
  }

  /** A report with its first entry, if there is one. */
  function With(first: bool, name: string, found: seq<Finding>): seq<Finding> {
    if first then [Finding(name, FieldParam(name))] + found else found
  }

  /** The first entry of the configuration, looked at before the others. */
  lemma {:induction false} FirstField(fields: seq<(string, Json)>, r: Fields)
    requires fields != [] && DistinctNames(fields)
    ensures var (name, rejected) := fields[0];
            var hit := Matches(rejected, Said(r, name));
            var next := if hit then r - {name} else r;
            && DistinctNames(fields[1..])
            && (forall i :: 0 < i < |fields| ==> Said(next, fields[i].0) == Said(r, fields[i].0))
            && StripFields(fields, r) ==
                 (StripFields(fields[1..], next).0, With(hit, name, StripFields(fields[1..], next).1))
  {
    HitIsMatch(fields[0].1, Get(r, fields[0].0));
  }

  /** Strip reports exactly the matching entries, in the configuration's order, and removes exactly their fields. */
  lemma {:induction false} MatchesAreStripped(fields: seq<(string, Json)>, r: Fields) returns (idx: seq<nat>)
    requires DistinctNames(fields)
    ensures PicksMatches(idx, fields, r) && ReportsFields(StripFields(fields, r).1, idx, fields)
    ensures LeavesOut(StripFields(fields, r).0, r, StripFields(fields, r).1)
  {
    idx := [];
    if fields != [] {
      var (name, rejected) := fields[0];
      var hit := Matches(rejected, Said(r, name));
      var next := if hit then r - {name} else r;
      FirstField(fields, r);
      var later := MatchesAreStripped(fields[1..], next);
      idx := Places(hit, later);
      PicksStep(fields, r, next, later, hit);
      ReportStep(fields, later, StripFields(fields[1..], next).1, hit);
      LeavesStep(r, next, StripFields(fields[1..], next).0, StripFields(fields[1..], next).1, name, hit);
    }
  }

  lemma {:induction false} PicksStep(fields: seq<(string, Json)>, r: Fields, next: Fields, later: seq<nat>, hit: bool)
    requires fields != [] && PicksMatches(later, fields[1..], next) && (hit <==> Matches(fields[0].1, Said(r, fields[0].0)))
    requires forall i :: 0 < i < |fields| ==> Said(next, fields[i].0) == Said(r, fields[i].0)
    ensures PicksMatches(Places(hit, later), fields, r)
  {
    PlacesFacts(hit, later);
    assert forall i :: 0 < i < |fields| ==> fields[i] == fields[1..][i - 1];
  }

  lemma {:induction false} ReportStep(fields: seq<(string, Json)>, later: seq<nat>, found: seq<Finding>, hit: bool)
    requires fields != [] && ReportsFields(found, later, fields[1..])
    ensures ReportsFields(With(hit, fields[0].0, found),
                          Places(hit, later), fields)
  {
  }

  lemma {:induction false} LeavesStep(r: Fields, next: Fields, after: Fields, found: seq<Finding>, name: string, hit: bool)
    requires next == (if hit then r - {name} else r) && LeavesOut(after, next, found)
    ensures LeavesOut(after, r, With(hit, name, found))
  {
    var all := With(hit, name, found);
    forall other: string ensures Reported(all, other) <==> Reported(found, other) || (hit && other == name) {
    }
  }

  // ---------- Mere presence ----------

  predicate HasValue(r: Fields, name: string) {
    name in r && r[name] != Null
  }

  ghost predicate PicksPresent(idx: seq<nat>, names: seq<string>, r: Fields) {
    Ascending(idx) && forall i: nat :: i in idx <==> i < |names| && HasValue(r, names[i]) && names[i] !in names[..i]
  }

  predicate ReportsNames(found: seq<Finding>, idx: seq<nat>, names: seq<string>) {
    |found| == |idx| && forall k :: 0 <= k < |idx| ==> idx[k] < |names| && found[k] == Finding(names[idx[k]], FieldParam(names[idx[k]]))
  }

  /** Strip reports exactly the configured fields that hold something, once each and in order, and removes exactly those. */
  lemma {:induction false} PresentAreStripped(names: seq<string>, r: Fields) returns (idx: seq<nat>)
    ensures PicksPresent(idx, names, r) && ReportsNames(StripPresent(names, r).1, idx, names)
    ensures LeavesOut(StripPresent(names, r).0, r, StripPresent(names, r).1)
  {
    idx := [];
    if names != [] {
      var hit := HasValue(r, names[0]);
      var next := if hit then r - {names[0]} else r;
      var later := PresentAreStripped(names[1..], next);
      idx := Places(hit, later);
      FirstName(names, r);
      PresentStep(names, r, next, later, hit);
      NamesStep(names, later, StripPresent(names[1..], next).1, hit);
      LeavesStep(r, next, StripPresent(names[1..], next).0, StripPresent(names[1..], next).1, names[0], hit);
    }
  }

  lemma {:induction false} FirstName(names: seq<string>, r: Fields)
    requires names != []
    ensures var hit := HasValue(r, names[0]);
            var (after, found) := StripPresent(names[1..], if hit then r - {names[0]} else r);
            StripPresent(names, r) == (after, With(hit, names[0], found))
  {
  }

  lemma {:induction false} NamesStep(names: seq<string>, later: seq<nat>, found: seq<Finding>, hit: bool)
    requires names != [] && ReportsNames(found, later, names[1..])
    ensures ReportsNames(With(hit, names[0], found), Places(hit, later), names)
  {
  }

  lemma {:induction false} PresentStep(names: seq<string>, r: Fields, next: Fields, later: seq<nat>, hit: bool)
    requires names != [] && PicksPresent(later, names[1..], next) && (hit <==> HasValue(r, names[0]))
    requires next == if hit then r - {names[0]} else r
    ensures PicksPresent(Places(hit, later), names, r)
  {
    PlacesFacts(hit, later);
    forall i | 0 < i < |names|
      ensures (HasValue(next, names[i]) && names[i] !in names[1..][..i - 1]) <==> (HasValue(r, names[i]) && names[i] !in names[..i])
    {
      assert names[..i] == [names[0]] + names[1..][..i - 1];
    }
    assert forall i :: 0 < i < |names| ==> names[i] == names[1..][i - 1];
    assert names[..0] == [];
  }

  // ---------- Strip mode as a whole ----------

  /** The tools part of the request after strip mode: no field when no tool is left. */
  predicate LeavesTools(after: Fields, before: Fields, left: seq<Json>) {
    && after - {"tools"} == before - {"tools"}
    && if left == [] then "tools" !in after else "tools" in after && after["tools"] == Arr(left)
  }

  /** Strip mode fails exactly on a tool type that cannot be looked up. */
  lemma {:induction false} StripFailsIff(cfg: RejectConfig, r: Fields, tools: seq<Json>)
    requires !OddTools(r) && HasTools(r, tools)
    ensures Strip(Stripping(cfg), r) == (r, BadToolType) <==> exists k :: 0 <= k < |tools| && CannotBeLookedUp(tools[k])
    ensures Strip(Stripping(cfg), r).1 == BadToolType || Strip(Stripping(cfg), r).1.Passed?
  {
    ToolsAreRead(r, tools);
    assert forall k :: 0 <= k < |tools| ==> (Unhashable(tools[k]) <==> CannotBeLookedUp(tools[k]));
  }

  /** Otherwise its report is: the tools that go, by index and type; the entries of rejected values that match what is then
      in the request; the fields that are still there and rejected for mere presence; each part in order.  What it leaves
      is the request with the other tools and without the reported fields. */
  lemma {:induction false} StripFinds(cfg: RejectConfig, r: Fields, tools: seq<Json>)
    returns (gone: seq<nat>, left: seq<nat>, mid: Fields, matched: seq<nat>, rest: Fields, present: seq<nat>)
    requires DistinctNames(cfg.fields) && !OddTools(r) && HasTools(r, tools)
    requires forall k :: 0 <= k < |tools| ==> !CannotBeLookedUp(tools[k])
    ensures Ascending(gone) && forall i: nat :: i in gone <==> i < |tools| && Goes(cfg, tools[i])
    ensures PicksKept(left, cfg, tools) && PicksMatches(matched, cfg.fields, mid) && PicksPresent(present, cfg.presentFields, rest)
    ensures exists survivors :: AreKept(survivors, left, tools) && LeavesTools(mid, r, survivors)
    ensures Strip(Stripping(cfg), r).1.Passed?
    ensures var (after, outcome) := Strip(Stripping(cfg), r);
            exists a, b, c :: outcome.stripped == a + b + c && ReportsTools(a, gone, tools)
                              && ReportsFields(b, matched, cfg.fields) && LeavesOut(rest, mid, b)
                              && ReportsNames(c, present, cfg.presentFields) && LeavesOut(after, rest, c)
  {
    var strip := Stripping(cfg);
    ToolsAreRead(r, tools);
    NoneUnhashable(tools);
    gone := DroppedIndices(strip, tools);
    ToolReport(strip, tools);
    forall i: nat ensures i in gone <==> i < |tools| && Goes(cfg, tools[i]) {
      if i < |tools| {
        ToolVerdicts(cfg, tools[i]);
      }
    }
    left := SurvivorsArePicked(cfg, tools);
    mid := WithTools(r, Surviving(strip, tools));
    matched := MatchesAreStripped(cfg.fields, mid);
    rest := StripFields(cfg.fields, mid).0;
    present := PresentAreStripped(cfg.presentFields, rest);
    var a, b, c := ToolFindings(strip, tools), StripFields(cfg.fields, mid).1, StripPresent(cfg.presentFields, rest).1;
    forall k | 0 <= k < |a| ensures ReportsTool(a[k], gone[k], tools) {
      assert gone[k] in gone;
    }
    ToolsLeft(r, Surviving(strip, tools));
    assert Strip(strip, r).1.stripped == a + b + c;
  }

  lemma {:induction false} NoneUnhashable(tools: seq<Json>)
    requires forall k :: 0 <= k < |tools| ==> !CannotBeLookedUp(tools[k])
    ensures !AnyUnhashable(tools)
  {
  }

  lemma {:induction false} ToolsLeft(r: Fields, left: seq<Json>)
    ensures LeavesTools(WithTools(r, left), r, left)
  {
  }

  // ---------- Reject mode as a whole ----------

  lemma {:induction false} FirstMatchRejects(fields: seq<(string, Json)>, r: Fields, k: nat)
    requires FirstMatch(fields, r, k)
    ensures RejectFields(fields, r) == Some(Finding(fields[k].0, FieldParam(fields[k].0)))
  {
    HitIsMatch(fields[0].1, Get(r, fields[0].0));
    if k > 0 {
      assert !Matches(fields[0].1, Said(r, fields[0].0));
      assert forall j :: 0 <= j < |fields| - 1 ==> fields[1..][j] == fields[j + 1];
      FirstMatchRejects(fields[1..], r, k - 1);
    }
  }

  lemma {:induction false} NoMatchPasses(fields: seq<(string, Json)>, r: Fields)
    requires NoMatch(fields, r)
    ensures RejectFields(fields, r) == None
  {
    if fields != [] {
      HitIsMatch(fields[0].1, Get(r, fields[0].0));
      assert forall j :: 0 <= j < |fields| - 1 ==> fields[1..][j] == fields[j + 1];
      NoMatchPasses(fields[1..], r);
    }
  }

  lemma {:induction false} FirstPresentRejects(names: seq<string>, r: Fields, k: nat)
    requires FirstPresent(names, r, k)
    ensures RejectPresent(names, r) == Some(Finding(names[k], FieldParam(names[k])))
  {
    if k > 0 {
      assert !HasValue(r, names[0]);
      assert forall j :: 0 <= j < |names| - 1 ==> names[1..][j] == names[j + 1];
      FirstPresentRejects(names[1..], r, k - 1);
    }
  }

  /** The first place of a tool that reject mode stops at: a denied type, or one that cannot be looked up. */
  predicate StopsAt(cfg: RejectConfig, tools: seq<Json>, k: nat) {
    && k < |tools| && (OfToolType(tools[k], cfg.tools) || CannotBeLookedUp(tools[k]))
    && forall j :: 0 <= j < k ==> !OfToolType(tools[j], cfg.tools) && !CannotBeLookedUp(tools[j])
  }

  lemma {:induction false} ToolStops(cfg: RejectConfig, tools: seq<Json>, k: nat)
    requires StopsAt(cfg, tools, k)
    ensures RejectingTools(Rejecting(cfg), tools) ==
            if OfToolType(tools[k], cfg.tools) then Rejected(Finding(tools[k].fields["type"].s, ToolParam(k))) else BadToolType
  {
    var bad := Rejecting(cfg);
    forall j | 0 <= j <= k ensures (Denied(bad, tools[j]) <==> OfToolType(tools[j], cfg.tools)) && (Unhashable(tools[j]) <==> CannotBeLookedUp(tools[j])) {
      ToolVerdicts(cfg, tools[j]);
    }
    FirstDeniedFacts(bad, tools);
    if OfToolType(tools[k], cfg.tools) {
      assert FirstDenied(bad, tools) == Some(k);
      assert forall j :: 0 <= j < k ==> tools[..k][j] == tools[j];
    } else {
      assert AnyUnhashable(tools);
      var first := FirstDenied(bad, tools);
      if first.Some? {
        assert tools[..first.value][k] == tools[k];
      }
    }
  }

  lemma {:induction false} NoToolStops(cfg: RejectConfig, tools: seq<Json>)
    requires forall k :: 0 <= k < |tools| ==> !OfToolType(tools[k], cfg.tools) && !CannotBeLookedUp(tools[k])
    ensures RejectingTools(Rejecting(cfg), tools) == Passed([])
  {
    NoneUnhashable(tools);
    NothingDenied(cfg, tools);
  }

  /** Reject mode answers for the first tool it stops at; else for the first entry of rejected values that matches; else for
      the first field rejected for mere presence; else it passes.  All it ever changes is an empty `tools` field. */
  lemma {:induction false} RejectFinds(cfg: RejectConfig, r: Fields, tools: seq<Json>)
    requires !OddTools(r) && HasTools(r, tools)
    ensures forall k: nat :: StopsAt(cfg, tools, k) ==>
              Reject(Rejecting(cfg), r) ==
              (r, if OfToolType(tools[k], cfg.tools) then Rejected(Finding(tools[k].fields["type"].s, ToolParam(k))) else BadToolType)
    ensures (forall k :: 0 <= k < |tools| ==> !OfToolType(tools[k], cfg.tools) && !CannotBeLookedUp(tools[k])) ==>
              LeavesTools(Reject(Rejecting(cfg), r).0, r, tools)
              && PassesTools(cfg, Reject(Rejecting(cfg), r).0, Reject(Rejecting(cfg), r).1)
  {
    ToolsAreRead(r, tools);
    forall k: nat | StopsAt(cfg, tools, k)
      ensures Reject(Rejecting(cfg), r) ==
              (r, if OfToolType(tools[k], cfg.tools) then Rejected(Finding(tools[k].fields["type"].s, ToolParam(k))) else BadToolType)
    {
      ToolStops(cfg, tools, k);
    }
    if forall k :: 0 <= k < |tools| ==> !OfToolType(tools[k], cfg.tools) && !CannotBeLookedUp(tools[k]) {
      NoToolStops(cfg, tools);
      ToolsLeft(r, tools);
      FieldsDecide(cfg, WithTools(r, tools));
    }
  }

  /** Tools that are not a list are passed over by both modes. */
  lemma {:induction false} OddToolsArePassedOver(cfg: RejectConfig, r: Fields) returns (matched: seq<nat>, rest: Fields, present: seq<nat>)
    requires DistinctNames(cfg.fields) && OddTools(r)
    ensures Reject(Rejecting(cfg), r).0 == r && PassesTools(cfg, r, Reject(Rejecting(cfg), r).1)
    ensures PicksMatches(matched, cfg.fields, r) && PicksPresent(present, cfg.presentFields, rest)
    ensures Strip(Stripping(cfg), r).1.Passed?
    ensures var (after, outcome) := Strip(Stripping(cfg), r);
            exists b, c :: outcome.stripped == b + c && ReportsFields(b, matched, cfg.fields) && LeavesOut(rest, r, b)
                           && ReportsNames(c, present, cfg.presentFields) && LeavesOut(after, rest, c)
  {
    assert !ToolsOf(r).Arr?;
    FieldsDecide(cfg, r);
    matched := MatchesAreStripped(cfg.fields, r);
    rest := StripFields(cfg.fields, r).0;
    present := PresentAreStripped(cfg.presentFields, rest);
    var none: seq<Finding> := [];
    var b, c := StripFields(cfg.fields, r).1, StripPresent(cfg.presentFields, rest).1;
    assert none + b == b && Strip(Stripping(cfg), r).1.stripped == b + c;
  }

  predicate FirstMatch(fields: seq<(string, Json)>, r: Fields, k: nat) {
    && k < |fields| && Matches(fields[k].1, Said(r, fields[k].0))
    && forall j :: 0 <= j < k ==> !Matches(fields[j].1, Said(r, fields[j].0))
  }

  predicate NoMatch(fields: seq<(string, Json)>, r: Fields) {
    forall j :: 0 <= j < |fields| ==> !Matches(fields[j].1, Said(r, fields[j].0))
  }

  predicate FirstPresent(names: seq<string>, r: Fields, k: nat) {
    k < |names| && HasValue(r, names[k]) && forall j :: 0 <= j < k ==> !HasValue(r, names[j])
  }

  predicate NonePresent(names: seq<string>, r: Fields) {
    forall j :: 0 <= j < |names| ==> !HasValue(r, names[j])
  }

  /** The outcome for a request whose tools were let through. */
  ghost predicate PassesTools(cfg: RejectConfig, r: Fields, outcome: Outcome) {
    && (forall k: nat :: FirstMatch(cfg.fields, r, k) ==> outcome == Rejected(Finding(cfg.fields[k].0, FieldParam(cfg.fields[k].0))))
    && (forall k: nat :: NoMatch(cfg.fields, r) && FirstPresent(cfg.presentFields, r, k) ==>
          outcome == Rejected(Finding(cfg.presentFields[k], FieldParam(cfg.presentFields[k]))))
    && (NoMatch(cfg.fields, r) && NonePresent(cfg.presentFields, r) ==> outcome == Passed([]))
  }

  lemma {:induction false} FieldsDecide(cfg: RejectConfig, r: Fields)
    ensures var hit := RejectFields(cfg.fields, r);
            PassesTools(cfg, r, AsOutcome(if hit.Some? then hit else RejectPresent(cfg.presentFields, r)))
  {
    forall k: nat | FirstMatch(cfg.fields, r, k)
      ensures RejectFields(cfg.fields, r) == Some(Finding(cfg.fields[k].0, FieldParam(cfg.fields[k].0)))
    {
      FirstMatchRejects(cfg.fields, r, k);
    }
    if NoMatch(cfg.fields, r) {
      NoMatchPasses(cfg.fields, r);
      forall k: nat | FirstPresent(cfg.presentFields, r, k)
        ensures RejectPresent(cfg.presentFields, r) == Some(Finding(cfg.presentFields[k], FieldParam(cfg.presentFields[k])))
      {
        FirstPresentRejects(cfg.presentFields, r, k);
      }
      if NonePresent(cfg.presentFields, r) {
        QuietPresentReportsNothing(cfg.presentFields, r);
      }
    }
  }
}
