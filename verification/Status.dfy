/** The status of a ResourceMetricsMonitor and everything that writes to it
    (pkg/apis/resourcestatemetrics/v1alpha1/types.go, internal/events.go). */
module Status {
  import opened Basics
  import opened Float
  import opened Tracker

  datatype ConditionType = Processed | Failed | CardinalityWarning | CardinalityCutoff

  /** metav1.ConditionStatus */
  datatype ConditionStatus = True | False | Unknown

  datatype Condition = Condition(
    ctype: string, status: ConditionStatus, reason: string, message: string,
    observedGeneration: int, lastTransitionTime: int)

  datatype CardinalityStatus = CardinalityStatus(
    total: int, perStore: map<string, int>, perFamily: map<string, int>,
    thresholdsExceeded: bool, cutoffFamilies: seq<string>, lastUpdated: int)

  const CONDITION_TYPE: seq<string> := ["Processed", "Failed", "CardinalityWarning", "CardinalityCutoff"]
  const MESSAGE_TRUE: seq<string> := [
    "Resource configuration has been processed successfully",
    "Resource failed to process",
    "Cardinality is approaching threshold",
    "Cardinality threshold exceeded, metric generation cut off"]
  const MESSAGE_FALSE: seq<string> := [
    "Resource configuration is yet to be processed",
    "N/A",
    "Cardinality is within acceptable limits",
    "Cardinality is within acceptable limits"]
  const REASON_TRUE: seq<string> := ["EventHandlerSucceeded", "EventHandlerFailed", "CardinalityWarning",
      "CardinalityCutoff"]
  const REASON_FALSE: seq<string> := ["EventHandlerRunning", "N/A", "CardinalityOK", "CardinalityOK"]

  function Index(t: ConditionType): nat {
    match t
    case Processed => 0
    case Failed => 1
    case CardinalityWarning => 2
    case CardinalityCutoff => 3
  }

  function TypeName(t: ConditionType): string {
    CONDITION_TYPE[Index(t)]
  }

  /** The same name is never used twice. */
  lemma TypeNamesDiffer(t: ConditionType, u: ConditionType)
    ensures TypeName(t) == TypeName(u) <==> t == u
  {
    assert "Processed"[0] != "Failed"[0];
    assert "CardinalityWarning"[11] != "CardinalityCutoff"[11];
  }

  // ---- one write, on values -----------------------------------------------------------

  /** Reason and message follow type and status; a reason of the caller's wins. */
  function Filled(t: ConditionType, status: ConditionStatus, reason: string, generation: int, now: int): Condition {
    var i := Index(t);
    Condition(TypeName(t), status,
              if reason != "" then reason else if status == True then REASON_TRUE[i] else REASON_FALSE[i],
              if status == True then MESSAGE_TRUE[i] else MESSAGE_FALSE[i],
              generation, now)
  }

  predicate Has(conditions: seq<Condition>, name: string) {
    exists i :: 0 <= i < |conditions| && conditions[i].ctype == name
  }

  /** after is before with condition c written: in its old place if its type was
      there, at the end otherwise; all other conditions stay where they were. */
  predicate IsSet(before: seq<Condition>, c: Condition, after: seq<Condition>) {
    if Has(before, c.ctype) then
      exists k :: 0 <= k < |before| && before[k].ctype == c.ctype
                  && (forall i | 0 <= i < k :: before[i].ctype != c.ctype) && after == before[k := c]
    else after == before + [c]
  }

  predicate OneEach(conditions: seq<Condition>) {
    forall i, j | 0 <= i < j < |conditions| :: conditions[i].ctype != conditions[j].ctype
  }

  /** The type's condition is there with this status. */
  predicate Says(conditions: seq<Condition>, t: ConditionType, status: ConditionStatus) {
    exists i :: 0 <= i < |conditions| && conditions[i].ctype == TypeName(t) && conditions[i].status == status
  }

  lemma SetKeeps(before: seq<Condition>, c: Condition, after: seq<Condition>)
    requires IsSet(before, c, after) && OneEach(before)
    ensures OneEach(after) && |before| <= |after| <= |before| + 1
    ensures forall i | 0 <= i < |before| :: after[i].ctype == before[i].ctype
    ensures forall i | 0 <= i < |before| && before[i].ctype != c.ctype :: after[i] == before[i]
    ensures exists i :: 0 <= i < |after| && after[i] == c
    ensures forall i | 0 <= i < |after| && after[i].ctype == c.ctype :: after[i] == c
    ensures forall name :: Has(after, name) <==> name == c.ctype || Has(before, name)
  {
    if Has(before, c.ctype) {
      var k :| 0 <= k < |before| && before[k].ctype == c.ctype
               && (forall i | 0 <= i < k :: before[i].ctype != c.ctype) && after == before[k := c];
      assert after[k] == c;
      forall name ensures Has(after, name) <==> Has(before, name) {
        if i :| 0 <= i < |before| && before[i].ctype == name { assert after[i].ctype == name; }
      }
    } else {
      assert after[|before|] == c;
      forall name ensures Has(after, name) <==> name == c.ctype || Has(before, name) {
        if i :| 0 <= i < |before| && before[i].ctype == name { assert after[i].ctype == name; }
      }
    }
  }

  lemma SaysAfterSet(before: seq<Condition>, t: ConditionType, status: ConditionStatus, c: Condition,
                     after: seq<Condition>,
                     u: ConditionType, other: ConditionStatus)
    requires IsSet(before, c, after) && OneEach(before) && c.ctype == TypeName(t) && c.status == status
    ensures Says(after, u, other) <==> if u == t then other == status else Says(before, u, other)
  {
    hide IsSet, TypeName, OneEach;
    TypeNamesDiffer(t, u);
    if u == t {
      hide Has;
      SetKeeps(before, c, after);
    } else {
      SaysOther(before, c, after, u, other);
    }
  }

  lemma SaysOther(before: seq<Condition>, c: Condition, after: seq<Condition>, u: ConditionType, other: ConditionStatus)
    requires IsSet(before, c, after) && OneEach(before) && c.ctype != TypeName(u)
    ensures Says(after, u, other) <==> Says(before, u, other)
  {
    hide IsSet, TypeName;
    SetKeeps(before, c, after);
    if Says(before, u, other) {
      var i :| 0 <= i < |before| && before[i].ctype == TypeName(u) && before[i].status == other;
      assert after[i] == before[i];
    }
    if i :| 0 <= i < |after| && after[i].ctype == TypeName(u) && after[i].status == other {
      assert Has(after, TypeName(u));
      var j :| 0 <= j < |before| && before[j].ctype == TypeName(u);
      assert i == j && after[j] == before[j];
    }
  }

  // ---- the status object ------------------------------------------------------------------

  predicate AnyOf(violations: seq<Violation>, severity: Severity) {
    exists i :: 0 <= i < |violations| && violations[i].severity == severity
  }

  class ResourceMetricsMonitorStatus {
    var conditions: seq<Condition>
    var cardinality: Option<CardinalityStatus>

    constructor (conditions: seq<Condition>, cardinality: Option<CardinalityStatus>)
      ensures this.conditions == conditions && this.cardinality == cardinality
    {
      this.conditions, this.cardinality := conditions, cardinality;
    }

    method Set(t: ConditionType, status: ConditionStatus, reason: string, generation: int, now: int)
      modifies `conditions
      ensures IsSet(old(conditions), Filled(t, status, reason, generation, now), conditions)
    {
      var text, why;
      var numeric := Index(t);
      if status == True {
        why, text := REASON_TRUE[numeric], MESSAGE_TRUE[numeric];
      } else {
        why, text := REASON_FALSE[numeric], MESSAGE_FALSE[numeric];
      }
      if reason != "" {
        why := reason;
      }
      var condition := Condition(TypeName(t), status, why, text, generation, now);
      for i := 0 to |conditions|
        invariant conditions == old(conditions)
        invariant forall j | 0 <= j < i :: conditions[j].ctype != condition.ctype
      {
        if conditions[i].ctype == condition.ctype {
          conditions := conditions[i := condition];
          return;
        }
      }
      conditions := conditions + [condition];
    }

    /** Cutoff first, then Warning; a warning without cutoff shows in the reason of
        the Cutoff condition. */
    method SetCardinalityConditions(violations: seq<Violation>, generation: int, now: int)
      modifies `conditions
      ensures CardinalitySet(old(conditions), AnyOf(violations, Warning), AnyOf(violations, Cutoff), generation, now,
                conditions)
    {
      var hasWarning, hasCutoff := false, false;
      for i := 0 to |violations|
        invariant hasWarning == AnyOf(violations[..i], Warning) && hasCutoff == AnyOf(violations[..i], Cutoff)
        invariant conditions == old(conditions)
      {
        AnyMore(violations, i);
        match violations[i].severity
        case Warning => hasWarning := true;
        case Cutoff => hasCutoff := true;
        case Fine =>
      }
      assert violations[..|violations|] == violations;
      if hasCutoff {
        Set(CardinalityCutoff, True, "", generation, now);
      } else {
        var reason := REASON_FALSE[Index(CardinalityCutoff)];
        if hasWarning {
          reason := REASON_TRUE[Index(CardinalityWarning)];
        }
        Set(CardinalityCutoff, False, reason, generation, now);
      }
      ghost var middle := conditions;
      Set(CardinalityWarning, if hasWarning || hasCutoff then True else False, "", generation, now);
      assert IsSet(middle, WarningCondition(hasWarning, hasCutoff, generation, now), conditions);
    }
  }

  lemma AnyMore(violations: seq<Violation>, i: nat)
    requires i < |violations|
    ensures forall s :: AnyOf(violations[..i + 1], s) <==> AnyOf(violations[..i], s) || violations[i].severity == s
  {
    forall s ensures AnyOf(violations[..i + 1], s) <==> AnyOf(violations[..i], s) || violations[i].severity == s {
      if violations[i].severity == s {
        assert violations[..i + 1][i].severity == s;
      }
      if j :| 0 <= j < i && violations[..i][j].severity == s {
        assert violations[..i + 1][j].severity == s;
      }
    }
  }

  function CutoffCondition(warning: bool, cutoff: bool, generation: int, now: int): Condition {
    if cutoff then Filled(CardinalityCutoff, True, "", generation, now)
    else Filled(CardinalityCutoff, False, if warning then "CardinalityWarning" else "CardinalityOK", generation, now)
  }

  function WarningCondition(warning: bool, cutoff: bool, generation: int, now: int): Condition {
    Filled(CardinalityWarning, if warning || cutoff then True else False, "", generation, now)
  }

  ghost predicate CardinalitySet(before: seq<Condition>, warning: bool, cutoff: bool, generation: int, now: int,
                                 after: seq<Condition>) {
    exists middle :: IsSet(before, CutoffCondition(warning, cutoff, generation, now), middle)
                     && IsSet(middle, WarningCondition(warning, cutoff, generation, now), after)
  }

  // ---- histories of a status -----------------------------------------------------------------

  /** The stored status. */
  datatype Stored = Stored(conditions: seq<Condition>, cardinality: Option<CardinalityStatus>)

  datatype Write =
    | Success(status: ConditionStatus)
    | Failure
    | Cardinality(violations: seq<Violation>, cardinality: CardinalityStatus)
    | Lost  // the API server refused the read or the update

  ghost predicate Written(s: Stored, w: Write, s': Stored) {
    match w
    case Success(status) =>
      s'.cardinality == s.cardinality &&
      exists generation, now :: IsSet(s.conditions, Filled(Processed, status, "", generation, now), s'.conditions)
    case Failure =>
      s'.cardinality == s.cardinality &&
      exists generation, now :: IsSet(s.conditions, Filled(Failed, True, "", generation, now), s'.conditions)
    case Cardinality(violations, cardinality) =>
      s'.cardinality == Some(cardinality) && cardinality.thresholdsExceeded == AnyOf(violations, Cutoff) &&
      exists generation, now ::
        CardinalitySet(s.conditions, AnyOf(violations, Warning), AnyOf(violations, Cutoff), generation, now,
            s'.conditions)
    case Lost => s' == s
  }

  ghost predicate IsHistory(writes: seq<Write>, states: seq<Stored>) {
    && |states| == |writes| + 1 && states[0] == Stored([], None)
    && forall i: nat | i < |writes| :: Written(states[i], writes[i], states[i + 1])
  }

  /** Types are unique; the cardinality conditions are there exactly when there are
      cardinality figures, say the same as these, and Cutoff implies Warning. */
  ghost predicate Coherent(s: Stored) {
    && OneEach(s.conditions)
    && (s.cardinality == None
        ==> !Has(s.conditions, TypeName(CardinalityCutoff)) && !Has(s.conditions, TypeName(CardinalityWarning)))
    && (s.cardinality.Some? ==>
          && Says(s.conditions, CardinalityCutoff, if s.cardinality.value.thresholdsExceeded then True else False)
          && Has(s.conditions, TypeName(CardinalityWarning)))
    && (Says(s.conditions, CardinalityCutoff, True) ==> Says(s.conditions, CardinalityWarning, True))
  }

  /** The condition type a write is about. */
  predicate Touches(w: Write, name: string) {
    match w
    case Success(_) => name == TypeName(Processed)
    case Failure => name == TypeName(Failed)
    case Cardinality(_, _) => name == TypeName(CardinalityCutoff) || name == TypeName(CardinalityWarning)
    case Lost => false
  }

  lemma SetOther(before: seq<Condition>, t: ConditionType, status: ConditionStatus, c: Condition, after: seq<Condition>)
    requires IsSet(before, c, after) && OneEach(before) && c.ctype == TypeName(t) && c.status == status
    ensures forall u, other :: Says(after, u, other) <==> if u == t then other == status else Says(before, u, other)
    ensures forall u :: Has(after, TypeName(u)) <==> u == t || Has(before, TypeName(u))
  {
    SetKeeps(before, c, after);
    forall u, other ensures Says(after, u, other) <==> if u == t then other == status else Says(before, u, other) {
      SaysAfterSet(before, t, status, c, after, u, other);
    }
    forall u ensures Has(after, TypeName(u)) <==> u == t || Has(before, TypeName(u)) {
      TypeNamesDiffer(t, u);
    }
  }

  lemma CardinalityWrite(s: Stored, violations: seq<Violation>, cardinality: CardinalityStatus, s': Stored)
    requires Coherent(s) && Written(s, Cardinality(violations, cardinality), s')
    ensures Coherent(s')
    ensures Says(s'.conditions, CardinalityWarning, if AnyOf(violations, Warning)
              || AnyOf(violations, Cutoff) then True else False)
  {
    hide IsSet, Has, Says, AnyOf, OneEach, TypeName;
    var warning, cutoff := AnyOf(violations, Warning), AnyOf(violations, Cutoff);
    var generation, now :| CardinalitySet(s.conditions, warning, cutoff, generation, now, s'.conditions);
    var c1, c2 := CutoffCondition(warning, cutoff, generation, now), WarningCondition(warning, cutoff, generation, now);
    var middle :| IsSet(s.conditions, c1, middle) && IsSet(middle, c2, s'.conditions);
    SetKeeps(s.conditions, c1, middle);
    SetKeeps(middle, c2, s'.conditions);
    SetOther(s.conditions, CardinalityCutoff, if cutoff then True else False, c1, middle);
    SetOther(middle, CardinalityWarning, if warning || cutoff then True else False, c2, s'.conditions);
  }

  lemma OtherWrite(s: Stored, t: ConditionType, status: ConditionStatus, generation: int, now: int, s': Stored)
    requires Coherent(s) && (t == Processed || t == Failed) && s'.cardinality == s.cardinality
    requires IsSet(s.conditions, Filled(t, status, "", generation, now), s'.conditions)
    ensures Coherent(s')
  {
    hide IsSet, Has, Says, OneEach, TypeName;
    SetKeeps(s.conditions, Filled(t, status, "", generation, now), s'.conditions);
    SetOther(s.conditions, t, status, Filled(t, status, "", generation, now), s'.conditions);
  }

  lemma WriteKeepsCoherent(s: Stored, w: Write, s': Stored)
    requires Coherent(s) && Written(s, w, s')
    ensures Coherent(s')
  {
    hide Coherent, IsSet;
    match w
    case Success(status) =>
      var generation, now :| IsSet(s.conditions, Filled(Processed, status, "", generation, now), s'.conditions);
      OtherWrite(s, Processed, status, generation, now, s');
    case Failure =>
      var generation, now :| IsSet(s.conditions, Filled(Failed, True, "", generation, now), s'.conditions);
      OtherWrite(s, Failed, True, generation, now, s');
    case Cardinality(violations, cardinality) => CardinalityWrite(s, violations, cardinality, s');
    case Lost =>
  }

  /** Whatever is written, and whatever writes are lost, the stored status stays
      coherent. */
  lemma {:induction false} StatusCoherent(writes: seq<Write>, states: seq<Stored>, n: nat)
    requires IsHistory(writes, states) && n < |states|
    ensures Coherent(states[n])
    decreases n
  {
    hide Coherent, Written;
    if n == 0 {
      NothingCoherent();
    } else {
      StatusCoherent(writes, states, n - 1);
      WriteKeepsCoherent(states[n - 1], writes[n - 1], states[n]);
    }
  }

  lemma NothingCoherent()
    ensures Coherent(Stored([], None))
  {
  }

  /** No write moves or removes a condition, and it changes only those it is about. */
  lemma WriteKeepsPlaces(s: Stored, w: Write, s': Stored)
    requires OneEach(s.conditions) && Written(s, w, s')
    ensures |s.conditions| <= |s'.conditions|
    ensures forall i | 0 <= i < |s.conditions| ::
              s'.conditions[i].ctype == s.conditions[i].ctype
              && (!Touches(w, s.conditions[i].ctype) ==> s'.conditions[i] == s.conditions[i])
  {
    hide IsSet, TypeName, OneEach, AnyOf, Has;
    match w
    case Success(status) =>
      var generation, now :| IsSet(s.conditions, Filled(Processed, status, "", generation, now), s'.conditions);
      SetKeeps(s.conditions, Filled(Processed, status, "", generation, now), s'.conditions);
    case Failure =>
      var generation, now :| IsSet(s.conditions, Filled(Failed, True, "", generation, now), s'.conditions);
      SetKeeps(s.conditions, Filled(Failed, True, "", generation, now), s'.conditions);
    case Cardinality(violations, cardinality) =>
      var warning, cutoff := AnyOf(violations, Warning), AnyOf(violations, Cutoff);
      var generation, now :| CardinalitySet(s.conditions, warning, cutoff, generation, now, s'.conditions);
      var c1, c2 := CutoffCondition(warning, cutoff, generation, now),
          WarningCondition(warning, cutoff, generation, now);
      var middle :| IsSet(s.conditions, c1, middle) && IsSet(middle, c2, s'.conditions);
      SetKeeps(s.conditions, c1, middle);
      SetKeeps(middle, c2, s'.conditions);
    case Lost =>
  }

  /** Over a whole history: once in, a condition keeps its place for good, and
      keeps its content as long as no write is about it. */
  lemma {:induction false} PlacesKept(writes: seq<Write>, states: seq<Stored>, a: nat, b: nat, i: nat)
    requires IsHistory(writes, states) && a <= b < |states| && i < |states[a].conditions|
    ensures i < |states[b].conditions| && states[b].conditions[i].ctype == states[a].conditions[i].ctype
    ensures (forall k | a <= k < b :: !Touches(writes[k], states[a].conditions[i].ctype)) ==>
              states[b].conditions[i] == states[a].conditions[i]
    decreases b - a
  {
    hide Written, Touches;
    if a < b {
      PlacesKept(writes, states, a, b - 1, i);
      StatusCoherent(writes, states, b - 1);
      WriteKeepsPlaces(states[b - 1], writes[b - 1], states[b]);
    }
  }
}
