/** The effective memory policy of an employee: normalization of loose JSON input, and merging of patches. */
module MemoryPolicy {
  import opened Prelude

  datatype Json = Null | Bool(b: bool) | Int(n: int) | Str(s: string) | List(items: seq<Json>) | Other(tag: nat)

  type Dict = map<string, Json>

  /** A normalized policy; `recall` and `retain` are membership in allowed_operations. */
  datatype Policy = Policy(enabled: bool, recall: bool, retain: bool, autoRetain: bool, days: Option<nat>)

  function Get(value: Dict, key: string): Json { if key in value then value[key] else Null }

  /** One of the two operations the policy knows. */
  datatype Op = Recall | Retain
  {
    function Name(): string { if this == Recall then "recall" else "retain" }

    /** The flags that switch the operation off when they are false. */
    function Flags(): set<string> {
      if this == Recall then {"recall", "allow_recall", "recall_enabled"}
      else {"retain", "allow_retain", "retain_enabled"}
    }
  }

  const OPERATION_SETS: set<string> := {"allowed_operations", "operations"}

  /** An explicit operation set names the operation; a malformed set names nothing. */
  predicate Names(set_: Json, op: Op) {
    && set_.List?
    && (forall i :: 0 <= i < |set_.items| ==> set_.items[i].Str?)
    && Str(op.Name()) in set_.items
  }

  predicate SwitchedOff(value: Dict, op: Op) { exists key :: key in op.Flags() && Get(value, key) == Bool(false) }

  predicate Enabled(value: Dict) { "enabled" in value ==> value["enabled"] == Bool(true) }

  predicate HasOperationSet(value: Dict) { exists key :: key in OPERATION_SETS && key in value }

  /**
   An operation is allowed when every explicit set names it (or, with no set, when it is recall) and nothing denies it.
   */
  predicate Allows(value: Dict, op: Op) {
    && Enabled(value)
    && (if HasOperationSet(value) then forall key :: key in OPERATION_SETS && key in value ==> Names(value[key], op)
        else op == Recall)
    && !SwitchedOff(value, op)
  }

  /** Anything but a positive integer that is not absent counts as one day. */
  function RetentionDays(raw: Json): Option<nat> {
    match raw
    case Null => None
    case Int(n) => if n < 1 then Some(1) else Some(n)
    case _ => Some(1)
  }

  function Normalized(value: Dict): Policy {
    Policy(Enabled(value), Allows(value, Recall), Allows(value, Retain),
           Get(value, "explicit_auto_retain") == Bool(true) && Allows(value, Retain),
           RetentionDays(Get(value, "retention_days")))
  }

  /** The operations that every explicit set names. */
  method NarrowBySets(explicit: seq<Json>, start: set<Op>) returns (allowed: set<Op>)
    ensures allowed == set op | op in start && NamedByAll(explicit, op)
  {
    allowed := start;
    for i := 0 to |explicit|
      invariant allowed == set op | op in start && NamedByAll(explicit[..i], op)
    {
      allowed := set op | op in allowed && Names(explicit[i], op);
      assert explicit[..i + 1] == explicit[..i] + [explicit[i]];
    }
    assert explicit[..|explicit|] == explicit;
  }

  /** Drops the operations that a flag switches off. */
  method DiscardSwitchedOff(value: Dict, named: set<Op>) returns (allowed: set<Op>)
    ensures allowed == set op | op in named && !SwitchedOff(value, op)
  {
    var ops := [Recall, Retain];
    allowed := named;
    for i := 0 to 2
      invariant allowed == set op | op in named && !(op in ops[..i] && SwitchedOff(value, op))
    {
      if SwitchedOff(value, ops[i]) { allowed := allowed - {ops[i]}; }
    }
    assert ops[..2] == ops && ops[0] == Recall && ops[1] == Retain;
  }

  /** The retention that counts: the caller's override, or else what the value says. */
  function EffectiveRetention(value: Dict, override: Option<int>): Option<nat> {
    RetentionDays(if override.Some? then Int(override.value) else Get(value, "retention_days"))
  }

  /** normalize_policy, narrowing a set of operations step by step; `raw` that is not an object counts as empty. */
  method NormalizePolicy(raw: Option<Dict>, override: Option<int>) returns (policy: Policy)
    ensures var value := if raw.Some? then raw.value else map[];
            policy == Normalized(value).(days := EffectiveRetention(value, override))
    ensures override.None? ==> policy == Normalized(if raw.Some? then raw.value else map[])
  {
    var value := if raw.Some? then raw.value else map[];
    var enabled := "enabled" !in value || value["enabled"] == Bool(true);
    var explicit := ExplicitSets(value);
    var allowed := NarrowBySets(explicit, if explicit != [] then {Recall, Retain} else {Recall});
    allowed := DiscardSwitchedOff(value, allowed);
    if !enabled { allowed := {}; }
    AllowedIsAllows(value, allowed);
    var retention := if override.Some? then Int(override.value) else Get(value, "retention_days");
    policy := Policy(enabled, Recall in allowed, Retain in allowed,
                     Get(value, "explicit_auto_retain") == Bool(true) && Retain in allowed, RetentionDays(retention));
  }

  lemma AllowedIsAllows(value: Dict, allowed: set<Op>)
    requires var explicit := ExplicitSets(value);
             var start := if explicit != [] then {Recall, Retain} else {Recall};
             var named := set op | op in start && NamedByAll(explicit, op) && !SwitchedOff(value, op);
             allowed == if Enabled(value) then named else {}
    ensures forall op: Op :: op in allowed <==> Allows(value, op)
  {
    ExplicitSetsCover(value);
  }

  function ExplicitSets(value: Dict): seq<Json> {
    (if "allowed_operations" in value then [value["allowed_operations"]] else [])
    + (if "operations" in value then [value["operations"]] else [])
  }

  predicate NamedByAll(sets: seq<Json>, op: Op) { forall k :: 0 <= k < |sets| ==> Names(sets[k], op) }

  lemma ExplicitSetsCover(value: Dict)
    ensures ExplicitSets(value) == [] <==> !HasOperationSet(value)
    ensures forall op: Op :: NamedByAll(ExplicitSets(value), op)
                             <==> forall key :: key in OPERATION_SETS && key in value ==> Names(value[key], op)
  {
    var sets := ExplicitSets(value);
    assert forall key :: key in OPERATION_SETS <==> key == "allowed_operations" || key == "operations";
    assert "allowed_operations" in value ==> sets[0] == value["allowed_operations"];
    assert "operations" in value ==> sets[|sets| - 1] == value["operations"];
  }

  /** The stored form of a normalized policy. */
  function ToDict(p: Policy): Dict {
    map["enabled" := Bool(p.enabled),
        "allowed_operations" :=
          List((if p.recall then [Str("recall")] else []) + (if p.retain then [Str("retain")] else [])),
        "explicit_auto_retain" := Bool(p.autoRetain),
        "retention_days" := if p.days.Some? then Int(p.days.value) else Null,
        "scope" := Str("employee")]
  }

  /** What holds of every normalized policy. */
  predicate NormalForm(p: Policy) {
    && (!p.enabled ==> !p.recall && !p.retain)
    && (p.autoRetain ==> p.retain)
    && (p.days.Some? ==> p.days.value >= 1)
  }

  lemma NormalizedIsNormal(value: Dict)
    ensures NormalForm(Normalized(value))
  {
  }

  lemma NamesDiffer()
    ensures Recall.Name() != Retain.Name()
  {
    assert "recall"[2] == 'c' && "retain"[2] == 't';
  }

  /** A stored policy names exactly the operations it allows. */
  lemma StoredNames(p: Policy, op: Op)
    ensures Names(ToDict(p)["allowed_operations"], op) <==> (if op == Recall then p.recall else p.retain)
  {
    NamesDiffer();
    var ops := ToDict(p)["allowed_operations"];
    assert p.recall ==> ops.items[0] == Str("recall");
    assert p.retain ==> ops.items[|ops.items| - 1] == Str("retain");
  }

  lemma StoredFormReadsBack(p: Policy)
    requires NormalForm(p)
    ensures Normalized(ToDict(p)) == p
  {
    var v := ToDict(p);
    assert "allowed_operations" in OPERATION_SETS && "allowed_operations" in v;
    StoredNames(p, Recall);
    StoredNames(p, Retain);
    assert "operations" !in v;
    assert forall key :: key in OPERATION_SETS && key in v ==> key == "allowed_operations";
    assert forall op: Op, key :: key in op.Flags() ==> key !in v;
  }

  /** Normalizing what normalization stored changes nothing. */
  lemma NormalizeIsIdempotent(value: Dict)
    ensures Normalized(ToDict(Normalized(value))) == Normalized(value)
  {
    StoredFormReadsBack(Normalized(value));
  }

  // ----- patches -----

  const SERVER_FIELDS: set<string> := {"source", "revision", "retention_guarded"}

  const POLICY_FIELDS: set<string> :=
    {"enabled", "allowed_operations", "operations", "recall", "retain", "allow_recall", "allow_retain",
     "recall_enabled", "retain_enabled", "explicit_auto_retain", "retention_days", "scope"}

  predicate ValidField(key: string, value: Json) {
    if key in OPERATION_SETS then
      value.List? && forall i :: 0 <= i < |value.items| ==> value.items[i] in {Str("recall"), Str("retain")}
    else if key == "retention_days" then value.Null? || (value.Int? && 1 <= value.n <= 36500)
    else if key == "scope" then value == Str("employee")
    else value.Bool?
  }

  predicate ValidPatch(patch: Dict) {
    patch.Keys <= POLICY_FIELDS && forall key :: key in patch ==> ValidField(key, patch[key])
  }

  function Stripped(patch: Dict): Dict { patch - SERVER_FIELDS }

  /** None stands for the validation error. */
  function MergePolicy(current: Dict, patch: Dict): Option<Policy> {
    var p := Stripped(patch);
    if !ValidPatch(p) then None
    else
      var merged := current + p;
      var renamed := if "operations" in p then merged["allowed_operations" := p["operations"]] else merged;
      Some(Normalized(renamed - {"operations"}))
  }

  /** A patch that names no operation set never enlarges what a normalized policy allows. */
  lemma PatchNeverEnlarges(p: Policy, patch: Dict)
    requires NormalForm(p)
    requires forall key :: key in OPERATION_SETS ==> key !in patch
    requires MergePolicy(ToDict(p), patch).Some?
    ensures var q := MergePolicy(ToDict(p), patch).value;
            NormalForm(q) && (q.recall ==> p.recall) && (q.retain ==> p.retain)
  {
    var s := Stripped(patch);
    assert "operations" in OPERATION_SETS && "allowed_operations" in OPERATION_SETS;
    var merged := (ToDict(p) + s) - {"operations"};
    NormalizedIsNormal(merged);
    assert merged["allowed_operations"] == ToDict(p)["allowed_operations"];
    assert HasOperationSet(merged);
    StoredNames(p, Recall);
    StoredNames(p, Retain);
  }
}
