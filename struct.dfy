/** Struct: the structural validator, a map from `z` tag to the schema of that field. Its
    Validate accepts a struct or a pointer to one, maps each field's tag to the field's value,
    and validates every schema entry against the value under its tag, failing fast on a tag
    the value lacks. A schema is a tree whose leaves are scalar validator objects, which the
    nested Validate calls update in place. */
module Structs {
  import opened Wrappers
  import opened Text
  import opened RuleChain
  import opened Values
  import Uints
  import Ints
  import Strings
  import Bools

  /** Go's Validatable: any scalar validator object or a nested Struct. */
  datatype Schema =
    | UintSchema(u: Uints.ValidatableUint)
    | IntSchema(i: Ints.ValidatableInt)
    | StringSchema(s: Strings.ValidatableString)
    | BoolSchema(b: Bools.ValidatableBool)
    | StructSchema(entries: seq<Entry>)

  /** One key of the Struct map with its nested schema. The order of the entries stands for
      the order in which Go's map iteration visits them in one call, which Go leaves open. */
  datatype Entry = Entry(tag: string, schema: Schema)

  /** The state of every validator object, one map per validator class. */
  datatype Store = Store(
    uints: map<Uints.ValidatableUint, Uints.UintState>,
    ints: map<Ints.ValidatableInt, Ints.IntState>,
    strs: map<Strings.ValidatableString, Strings.StringState>,
    bools: map<Bools.ValidatableBool, Bools.BoolState>)

  /** A set of validator objects, one set per class. */
  datatype Domain = Domain(
    uints: set<Uints.ValidatableUint>,
    ints: set<Ints.ValidatableInt>,
    strs: set<Strings.ValidatableString>,
    bools: set<Bools.ValidatableBool>)

  function KeysOf(st: Store): Domain
  {
    Domain(st.uints.Keys, st.ints.Keys, st.strs.Keys, st.bools.Keys)
  }

  /** Every validator object of the schema is in d. */
  predicate Has(s: Schema, d: Domain)
    decreases s
  {
    match s
    case UintSchema(u) => u in d.uints
    case IntSchema(i) => i in d.ints
    case StringSchema(v) => v in d.strs
    case BoolSchema(b) => b in d.bools
    case StructSchema(entries) => forall e :: e in entries ==> Has(e.schema, d)
  }

  /** The objects that validating against the schema may change. */
  ghost function Footprint(s: Schema): set<object>
    decreases s
  {
    match s
    case UintSchema(u) => {u}
    case IntSchema(i) => {i}
    case StringSchema(v) => {v}
    case BoolSchema(b) => {b}
    case StructSchema(entries) => set e, o | e in entries && o in Footprint(e.schema) :: o
  }

  /** The current state of the objects in d. */
  ghost function Snap(d: Domain): (st: Store)
    reads d.uints, d.ints, d.strs, d.bools
    ensures KeysOf(st) == d
  {
    Store(SnapUints(d.uints), SnapInts(d.ints), SnapStrs(d.strs), SnapBools(d.bools))
  }

  ghost function SnapUints(us: set<Uints.ValidatableUint>): (m: map<Uints.ValidatableUint, Uints.UintState>)
    reads us
  {
    map u | u in us :: u.State()
  }

  ghost function SnapInts(ns: set<Ints.ValidatableInt>): (m: map<Ints.ValidatableInt, Ints.IntState>)
    reads ns
  {
    map i | i in ns :: i.State()
  }

  ghost function SnapStrs(vs: set<Strings.ValidatableString>): (m: map<Strings.ValidatableString, Strings.StringState>)
    reads vs
  {
    map v | v in vs :: v.State()
  }

  ghost function SnapBools(bs: set<Bools.ValidatableBool>): (m: map<Bools.ValidatableBool, Bools.BoolState>)
    reads bs
  {
    map b | b in bs :: b.State()
  }

  /** The path a nested schema is validated under: "parent.tag" when a tag was given, else
      the bare tag. */
  function Qualify(tags: seq<string>, tag: string): (path: string)
    ensures |tag| <= |path| && path[|path| - |tag|..] == tag
    ensures |tags| == 0 ==> path == tag
  {
    if |tags| > 0 then tags[0] + "." + tag else tag
  }

  /** The message for a schema tag the value lacks. */
  function NotFound(path: string): string
  {
    "tag <" + path + "> not found for <Struct>"
  }

  /** The message for a value that is neither a struct nor a pointer to one. */
  function StructMismatch(tags: seq<string>): string
  {
    if |tags| > 0 then tags[0] + " failed validation for <Struct>" else "failed validation for <Struct>"
  }

  /** Inputs on which Struct.Validate's reflection panics: the nil interface, a nil pointer,
      and a pointer whose target is the nil interface. */
  predicate Panics(data: Value)
  {
    data.VNil? || data.VNilPtr? || (data.VPtr? && data.target.VNil?)
  }

  /** The kind switch: a struct is taken as it is, a pointer is dereferenced once and must then
      be a struct, anything else is rejected. */
  function AsRecord(data: Value): Option<seq<Field>>
  {
    match data
    case VRecord(fields) => Some(fields)
    case VPtr(VRecord(fields)) => Some(fields)
    case _ => None
  }

  /** The `values` map: each field's tag to that field's value; a later field with the same
      tag replaces an earlier one. */
  function FieldMap(fields: seq<Field>): map<string, Value>
  {
    if fields == [] then map[]
    else FieldMap(fields[..|fields| - 1])[fields[|fields| - 1].tag := fields[|fields| - 1].value]
  }

  /** Validation against the schema does not panic. Nested Struct validators are reached in
      iteration order, and the fail-fast on a missing tag stops before any later entry. */
  predicate Defined(s: Schema, data: Value)
    decreases s
  {
    match s
    case StructSchema(entries) =>
      !Panics(data) && (AsRecord(data).Some? ==> EntriesDefined(entries, FieldMap(AsRecord(data).value)))
    case _ => true
  }

  predicate EntriesDefined(entries: seq<Entry>, vals: map<string, Value>)
    decreases entries
  {
    entries == [] ||
    (entries[0].tag in vals ==>
      Defined(entries[0].schema, vals[entries[0].tag]) && EntriesDefined(entries[1..], vals))
  }

  /** One call of schema.Validate(data, tags...): the new state of every validator and the
      returned error (None for nil). */
  function RunSchema(lib: Strings.Library, s: Schema, data: Value, tags: seq<string>, st: Store): (out: (Store, Option<string>))
    requires Has(s, KeysOf(st)) && Defined(s, data)
    ensures KeysOf(out.0) == KeysOf(st)
    decreases s, 0
  {
    match s
    case UintSchema(u) =>
      var step := Uints.Run(st.uints[u], data, tags);
      (st.(uints := st.uints[u := step.0]), step.1)
    case IntSchema(i) =>
      var step := Ints.Run(st.ints[i], data, tags);
      (st.(ints := st.ints[i := step.0]), step.1)
    case StringSchema(v) =>
      var step := Strings.Run(lib, st.strs[v], data, tags);
      (st.(strs := st.strs[v := step.0]), step.1)
    case BoolSchema(b) =>
      var step := Bools.Run(st.bools[b], data, tags);
      (st.(bools := st.bools[b := step.0]), step.1)
    case StructSchema(entries) => RunStruct(lib, entries, data, tags, st)
  }

  /** One call of Struct.Validate. */
  function RunStruct(lib: Strings.Library, entries: seq<Entry>, data: Value, tags: seq<string>, st: Store): (out: (Store, Option<string>))
    requires Has(StructSchema(entries), KeysOf(st)) && Defined(StructSchema(entries), data)
    ensures KeysOf(out.0) == KeysOf(st)
    decreases entries, 1
  {
    match AsRecord(data)
    case None => (st, Some(StructMismatch(tags)))
    case Some(fields) => RunEntries(lib, entries, FieldMap(fields), tags, st, [])
  }

  /** The loop over the schema entries, from the messages errs collected so far. */
  function RunEntries(lib: Strings.Library, entries: seq<Entry>, vals: map<string, Value>, tags: seq<string>, st: Store, errs: seq<string>): (out: (Store, Option<string>))
    requires Has(StructSchema(entries), KeysOf(st)) && EntriesDefined(entries, vals)
    ensures KeysOf(out.0) == KeysOf(st)
    decreases entries, 0
  {
    if entries == [] then (st, Report(errs))
    else
      var tag := entries[0].tag;
      var path := Qualify(tags, tag);
      if tag !in vals then (st, Some(NotFound(path)))
      else
        var step := RunSchema(lib, entries[0].schema, vals[tag], [path], st);
        RunEntries(lib, entries[1..], vals, tags, step.0, errs + Emit(step.1))
  }

  /** The values map is built field by field; the result is FieldMap(fields). */
  method BuildFieldMap(fields: seq<Field>) returns (values: map<string, Value>)
    ensures values == FieldMap(fields)
  {
    values := map[];
    for i := 0 to |fields|
      invariant values == FieldMap(fields[..i])
    {
      assert fields[..i + 1][..i] == fields[..i];
      values := values[fields[i].tag := fields[i].value];
    }
    assert fields[..|fields|] == fields;
  }

  /** schema.Validate(data, tags...) for any kind of schema. d is any set of validator objects
      that holds those of the schema; the method leaves every other object alone. */
  method ValidateSchema(lib: Strings.Library, s: Schema, data: Value, tags: seq<string>, ghost d: Domain) returns (r: Option<string>)
    requires Has(s, d) && Defined(s, data)
    modifies Footprint(s)
    ensures Snap(d) == RunSchema(lib, s, data, tags, old(Snap(d))).0
    ensures r == RunSchema(lib, s, data, tags, old(Snap(d))).1
    decreases s, 0
  {
    match s
    case UintSchema(u) => r := ValidateUint(u, data, tags, d);
    case IntSchema(i) => r := ValidateInt(i, data, tags, d);
    case StringSchema(v) => r := ValidateString(lib, v, data, tags, d);
    case BoolSchema(b) => r := ValidateBool(b, data, tags, d);
    case StructSchema(entries) => r := ValidateStruct(lib, entries, data, tags, d);
  }

  /** The scalar cases of ValidateSchema: the validator's own Validate, which changes that one
      validator and no other. */
  method ValidateUint(u: Uints.ValidatableUint, data: Value, tags: seq<string>, ghost d: Domain) returns (r: Option<string>)
    requires u in d.uints
    modifies u
    ensures SnapUints(d.uints) == old(SnapUints(d.uints))[u := u.State()]
    ensures SnapInts(d.ints) == old(SnapInts(d.ints)) && SnapStrs(d.strs) == old(SnapStrs(d.strs)) && SnapBools(d.bools) == old(SnapBools(d.bools))
    ensures u.State() == Uints.Run(old(u.State()), data, tags).0 && r == Uints.Run(old(u.State()), data, tags).1
  {
    r := u.Validate(data, tags);
  }

  method ValidateInt(i: Ints.ValidatableInt, data: Value, tags: seq<string>, ghost d: Domain) returns (r: Option<string>)
    requires i in d.ints
    modifies i
    ensures SnapInts(d.ints) == old(SnapInts(d.ints))[i := i.State()]
    ensures SnapUints(d.uints) == old(SnapUints(d.uints)) && SnapStrs(d.strs) == old(SnapStrs(d.strs)) && SnapBools(d.bools) == old(SnapBools(d.bools))
    ensures i.State() == Ints.Run(old(i.State()), data, tags).0 && r == Ints.Run(old(i.State()), data, tags).1
  {
    r := i.Validate(data, tags);
  }

  method ValidateString(lib: Strings.Library, v: Strings.ValidatableString, data: Value, tags: seq<string>, ghost d: Domain) returns (r: Option<string>)
    requires v in d.strs
    modifies v
    ensures SnapStrs(d.strs) == old(SnapStrs(d.strs))[v := v.State()]
    ensures SnapUints(d.uints) == old(SnapUints(d.uints)) && SnapInts(d.ints) == old(SnapInts(d.ints)) && SnapBools(d.bools) == old(SnapBools(d.bools))
    ensures v.State() == Strings.Run(lib, old(v.State()), data, tags).0 && r == Strings.Run(lib, old(v.State()), data, tags).1
  {
    r := v.Validate(lib, data, tags);
  }

  method ValidateBool(b: Bools.ValidatableBool, data: Value, tags: seq<string>, ghost d: Domain) returns (r: Option<string>)
    requires b in d.bools
    modifies b
    ensures SnapBools(d.bools) == old(SnapBools(d.bools))[b := b.State()]
    ensures SnapUints(d.uints) == old(SnapUints(d.uints)) && SnapInts(d.ints) == old(SnapInts(d.ints)) && SnapStrs(d.strs) == old(SnapStrs(d.strs))
    ensures b.State() == Bools.Run(old(b.State()), data, tags).0 && r == Bools.Run(old(b.State()), data, tags).1
  {
    r := b.Validate(data, tags);
  }

  /** Struct.Validate(data, tags...). */
  method ValidateStruct(lib: Strings.Library, entries: seq<Entry>, data: Value, tags: seq<string>, ghost d: Domain) returns (r: Option<string>)
    requires Has(StructSchema(entries), d) && Defined(StructSchema(entries), data)
    modifies Footprint(StructSchema(entries))
    ensures Snap(d) == RunStruct(lib, entries, data, tags, old(Snap(d))).0
    ensures r == RunStruct(lib, entries, data, tags, old(Snap(d))).1
    decreases entries, 1
  {
    var fields: seq<Field>;
    match data {
      case VRecord(fs) => fields := fs;
      case VPtr(VRecord(fs)) => fields := fs;
      case _ => return Some(StructMismatch(tags));
    }
    var values := BuildFieldMap(fields);
    ghost var full := RunEntries(lib, entries, values, tags, Snap(d), []);
    var errs: seq<string> := [];
    for i := 0 to |entries|
      invariant EntriesDefined(entries[i..], values)
      invariant RunEntries(lib, entries[i..], values, tags, Snap(d), errs) == full
    {
      if entries[i].tag !in values {
        return Some(NotFound(Qualify(tags, entries[i].tag)));
      }
      errs := ValidateEntry(lib, entries, i, values, tags, errs, d);
    }
    if |errs| > 0 {
      r := Some(Join(errs, ", "));
    } else {
      r := None;
    }
  }

  /** One pass of Struct.Validate's loop, for an entry whose tag the value has: the nested
      schema is validated under the qualified path and its error, if any, is appended. */
  method ValidateEntry(lib: Strings.Library, entries: seq<Entry>, i: nat, values: map<string, Value>, tags: seq<string>, errs: seq<string>, ghost d: Domain)
    returns (next: seq<string>)
    requires i < |entries| && entries[i].tag in values
    requires Has(StructSchema(entries), d) && EntriesDefined(entries[i..], values)
    modifies Footprint(StructSchema(entries))
    ensures EntriesDefined(entries[i + 1..], values)
    ensures RunEntries(lib, entries[i + 1..], values, tags, Snap(d), next) == RunEntries(lib, entries[i..], values, tags, old(Snap(d)), errs)
    decreases entries, 0
  {
    assert entries[i..][0] == entries[i] && entries[i..][1..] == entries[i + 1..];
    assert entries[i] in entries;
    var path := Qualify(tags, entries[i].tag);
    ghost var step := RunSchema(lib, entries[i].schema, values[entries[i].tag], [path], Snap(d));
    assert RunEntries(lib, entries[i..], values, tags, Snap(d), errs) ==
      RunEntries(lib, entries[i + 1..], values, tags, step.0, errs + Emit(step.1));
    var err := ValidateSchema(lib, entries[i].schema, values[entries[i].tag], [path], d);
    if err.Some? {
      next := errs + [err.value];
    } else {
      next := errs;
    }
    assert next == errs + Emit(step.1);
  }

  /** The values map holds a tag exactly when some field carries it, and then the value of the
      last such field. */
  lemma {:induction false} FieldMapLastWins(fields: seq<Field>, tag: string)
    ensures tag in FieldMap(fields) <==> exists i :: 0 <= i < |fields| && fields[i].tag == tag
    ensures forall k :: 0 <= k < |fields| && fields[k].tag == tag && (forall j :: k < j < |fields| ==> fields[j].tag != tag) ==>
      FieldMap(fields)[tag] == fields[k].value
  {
    if fields != [] {
      var n := |fields| - 1;
      FieldMapLastWins(fields[..n], tag);
      assert forall i :: 0 <= i < n ==> fields[..n][i] == fields[i];
    }
  }

  /** Every validator keeps its kind and rules and only gains messages. */
  ghost predicate Grows(st: Store, st2: Store)
  {
    UintsGrow(st.uints, st2.uints) && IntsGrow(st.ints, st2.ints) &&
    StrsGrow(st.strs, st2.strs) && BoolsGrow(st.bools, st2.bools)
  }

  ghost predicate UintsGrow(m: map<Uints.ValidatableUint, Uints.UintState>, m2: map<Uints.ValidatableUint, Uints.UintState>)
  {
    m.Keys == m2.Keys &&
    forall u :: u in m ==> m2[u].kind == m[u].kind && m2[u].rules == m[u].rules && m[u].errors <= m2[u].errors
  }

  ghost predicate IntsGrow(m: map<Ints.ValidatableInt, Ints.IntState>, m2: map<Ints.ValidatableInt, Ints.IntState>)
  {
    m.Keys == m2.Keys &&
    forall i :: i in m ==> m2[i].kind == m[i].kind && m2[i].rules == m[i].rules && m[i].errors <= m2[i].errors
  }

  ghost predicate StrsGrow(m: map<Strings.ValidatableString, Strings.StringState>, m2: map<Strings.ValidatableString, Strings.StringState>)
  {
    m.Keys == m2.Keys &&
    forall v :: v in m ==> m2[v].rules == m[v].rules && m[v].errors <= m2[v].errors
  }

  ghost predicate BoolsGrow(m: map<Bools.ValidatableBool, Bools.BoolState>, m2: map<Bools.ValidatableBool, Bools.BoolState>)
  {
    m.Keys == m2.Keys &&
    forall b :: b in m ==> m2[b].rules == m[b].rules && m[b].errors <= m2[b].errors
  }

  /** Grows both ways: no validator gained a message. */
  ghost predicate SameErrors(st: Store, st2: Store)
  {
    Grows(st, st2) && Grows(st2, st)
  }

  /** The condition under which schema.Validate(data) returns nil, judged on the state before
      the call: a scalar validator's own condition, and for a Struct a struct (or a pointer to
      one) that has every schema tag, each of whose values passes its nested schema. */
  ghost predicate Passes(lib: Strings.Library, s: Schema, data: Value, st: Store)
    requires Has(s, KeysOf(st)) && Defined(s, data)
    decreases s
  {
    match s
    case UintSchema(u) => Uints.Passes(st.uints[u], data)
    case IntSchema(i) => Ints.Passes(st.ints[i], data)
    case StringSchema(v) => Strings.Passes(lib, st.strs[v], data)
    case BoolSchema(b) => Bools.Passes(st.bools[b], data)
    case StructSchema(entries) =>
      AsRecord(data).Some? && EntriesPass(lib, entries, FieldMap(AsRecord(data).value), st)
  }

  ghost predicate EntriesPass(lib: Strings.Library, entries: seq<Entry>, vals: map<string, Value>, st: Store)
    requires Has(StructSchema(entries), KeysOf(st)) && EntriesDefined(entries, vals)
    decreases entries
  {
    entries == [] ||
    (entries[0].tag in vals && Passes(lib, entries[0].schema, vals[entries[0].tag], st) &&
     EntriesPass(lib, entries[1..], vals, st))
  }

  /** Whether a schema passes depends only on the kinds, rules and errors of its validators. */
  lemma {:induction false} PassesStable(lib: Strings.Library, s: Schema, data: Value, st: Store, st2: Store)
    requires Has(s, KeysOf(st)) && Defined(s, data) && SameErrors(st, st2)
    ensures Passes(lib, s, data, st) <==> Passes(lib, s, data, st2)
    decreases s, 1
  {
    if s.StructSchema? && AsRecord(data).Some? {
      EntriesPassStable(lib, s.entries, FieldMap(AsRecord(data).value), st, st2);
    }
  }

  lemma {:induction false} EntriesPassStable(lib: Strings.Library, entries: seq<Entry>, vals: map<string, Value>, st: Store, st2: Store)
    requires Has(StructSchema(entries), KeysOf(st)) && EntriesDefined(entries, vals) && SameErrors(st, st2)
    ensures EntriesPass(lib, entries, vals, st) <==> EntriesPass(lib, entries, vals, st2)
    decreases entries, 0
  {
    if entries != [] {
      assert entries[0] in entries;
      if entries[0].tag in vals {
        PassesStable(lib, entries[0].schema, vals[entries[0].tag], st, st2);
        EntriesPassStable(lib, entries[1..], vals, st, st2);
      }
    }
  }

  lemma GrowsTrans(a: Store, b: Store, c: Store)
    requires Grows(a, b) && Grows(b, c)
    ensures Grows(a, c)
  {
    UintsGrowTrans(a.uints, b.uints, c.uints);
    IntsGrowTrans(a.ints, b.ints, c.ints);
    StrsGrowTrans(a.strs, b.strs, c.strs);
    BoolsGrowTrans(a.bools, b.bools, c.bools);
  }

  lemma UintsGrowTrans(a: map<Uints.ValidatableUint, Uints.UintState>, b: map<Uints.ValidatableUint, Uints.UintState>, c: map<Uints.ValidatableUint, Uints.UintState>)
    requires UintsGrow(a, b) && UintsGrow(b, c)
    ensures UintsGrow(a, c)
  {
    forall u | u in a ensures a[u].errors <= c[u].errors {
      PrefixTrans(a[u].errors, b[u].errors, c[u].errors);
    }
  }

  lemma IntsGrowTrans(a: map<Ints.ValidatableInt, Ints.IntState>, b: map<Ints.ValidatableInt, Ints.IntState>, c: map<Ints.ValidatableInt, Ints.IntState>)
    requires IntsGrow(a, b) && IntsGrow(b, c)
    ensures IntsGrow(a, c)
  {
    forall i | i in a ensures a[i].errors <= c[i].errors {
      PrefixTrans(a[i].errors, b[i].errors, c[i].errors);
    }
  }

  lemma StrsGrowTrans(a: map<Strings.ValidatableString, Strings.StringState>, b: map<Strings.ValidatableString, Strings.StringState>, c: map<Strings.ValidatableString, Strings.StringState>)
    requires StrsGrow(a, b) && StrsGrow(b, c)
    ensures StrsGrow(a, c)
  {
    forall v | v in a ensures a[v].errors <= c[v].errors {
      PrefixTrans(a[v].errors, b[v].errors, c[v].errors);
    }
  }

  lemma BoolsGrowTrans(a: map<Bools.ValidatableBool, Bools.BoolState>, b: map<Bools.ValidatableBool, Bools.BoolState>, c: map<Bools.ValidatableBool, Bools.BoolState>)
    requires BoolsGrow(a, b) && BoolsGrow(b, c)
    ensures BoolsGrow(a, c)
  {
    forall x | x in a ensures a[x].errors <= c[x].errors {
      PrefixTrans(a[x].errors, b[x].errors, c[x].errors);
    }
  }

  lemma PrefixTrans(a: seq<string>, b: seq<string>, c: seq<string>)
    requires a <= b && b <= c
    ensures a <= c
  {
    assert c[..|a|] == c[..|b|][..|a|];
  }

  /** One call of schema.Validate keeps every validator's kind and rules and only appends
      messages to error lists. */
  lemma {:induction false} SchemaGrows(lib: Strings.Library, s: Schema, data: Value, tags: seq<string>, st: Store)
    requires Has(s, KeysOf(st)) && Defined(s, data)
    ensures Grows(st, RunSchema(lib, s, data, tags, st).0)
    decreases s, 2
  {
    match s
    case UintSchema(u) => UintStepGrows(lib, u, data, tags, st);
    case IntSchema(i) => IntStepGrows(lib, i, data, tags, st);
    case StringSchema(v) => StrStepGrows(lib, v, data, tags, st);
    case BoolSchema(b) => BoolStepGrows(lib, b, data, tags, st);
    case StructSchema(entries) =>
      if AsRecord(data).Some? {
        EntriesGrow(lib, entries, FieldMap(AsRecord(data).value), tags, st, []);
      } else {
        GrowsRefl(st);
      }
  }

  /** A scalar step: one validator's state is replaced by one that extends it. */
  lemma UintStepGrows(lib: Strings.Library, u: Uints.ValidatableUint, data: Value, tags: seq<string>, st: Store)
    requires u in st.uints
    ensures Grows(st, RunSchema(lib, UintSchema(u), data, tags, st).0)
  {
    UintsGrowUpdate(st.uints, u, Uints.Run(st.uints[u], data, tags).0);
    GrowsRefl(st);
  }

  lemma IntStepGrows(lib: Strings.Library, i: Ints.ValidatableInt, data: Value, tags: seq<string>, st: Store)
    requires i in st.ints
    ensures Grows(st, RunSchema(lib, IntSchema(i), data, tags, st).0)
  {
    IntsGrowUpdate(st.ints, i, Ints.Run(st.ints[i], data, tags).0);
    GrowsRefl(st);
  }

  lemma StrStepGrows(lib: Strings.Library, v: Strings.ValidatableString, data: Value, tags: seq<string>, st: Store)
    requires v in st.strs
    ensures Grows(st, RunSchema(lib, StringSchema(v), data, tags, st).0)
  {
    StrsGrowUpdate(st.strs, v, Strings.Run(lib, st.strs[v], data, tags).0);
    GrowsRefl(st);
  }

  lemma BoolStepGrows(lib: Strings.Library, b: Bools.ValidatableBool, data: Value, tags: seq<string>, st: Store)
    requires b in st.bools
    ensures Grows(st, RunSchema(lib, BoolSchema(b), data, tags, st).0)
  {
    BoolsGrowUpdate(st.bools, b, Bools.Run(st.bools[b], data, tags).0);
    GrowsRefl(st);
  }

  lemma GrowsRefl(st: Store)
    ensures Grows(st, st)
  {
  }

  lemma UintsGrowUpdate(m: map<Uints.ValidatableUint, Uints.UintState>, u: Uints.ValidatableUint, x: Uints.UintState)
    requires u in m && x.kind == m[u].kind && x.rules == m[u].rules && m[u].errors <= x.errors
    ensures UintsGrow(m, m[u := x])
    ensures x.errors == m[u].errors ==> UintsGrow(m[u := x], m)
  {
  }

  lemma IntsGrowUpdate(m: map<Ints.ValidatableInt, Ints.IntState>, i: Ints.ValidatableInt, x: Ints.IntState)
    requires i in m && x.kind == m[i].kind && x.rules == m[i].rules && m[i].errors <= x.errors
    ensures IntsGrow(m, m[i := x])
    ensures x.errors == m[i].errors ==> IntsGrow(m[i := x], m)
  {
  }

  lemma StrsGrowUpdate(m: map<Strings.ValidatableString, Strings.StringState>, v: Strings.ValidatableString, x: Strings.StringState)
    requires v in m && x.rules == m[v].rules && m[v].errors <= x.errors
    ensures StrsGrow(m, m[v := x])
    ensures x.errors == m[v].errors ==> StrsGrow(m[v := x], m)
  {
  }

  lemma BoolsGrowUpdate(m: map<Bools.ValidatableBool, Bools.BoolState>, b: Bools.ValidatableBool, x: Bools.BoolState)
    requires b in m && x.rules == m[b].rules && m[b].errors <= x.errors
    ensures BoolsGrow(m, m[b := x])
    ensures x.errors == m[b].errors ==> BoolsGrow(m[b := x], m)
  {
  }

  lemma {:induction false} EntriesGrow(lib: Strings.Library, entries: seq<Entry>, vals: map<string, Value>, tags: seq<string>, st: Store, errs: seq<string>)
    requires Has(StructSchema(entries), KeysOf(st)) && EntriesDefined(entries, vals)
    ensures Grows(st, RunEntries(lib, entries, vals, tags, st, errs).0)
    decreases entries, 0
  {
    if entries != [] && entries[0].tag in vals {
      var e := entries[0];
      assert e in entries;
      var path := Qualify(tags, e.tag);
      var step := RunSchema(lib, e.schema, vals[e.tag], [path], st);
      SchemaGrows(lib, e.schema, vals[e.tag], [path], st);
      RestHas(entries, st, step.0);
      EntriesGrow(lib, entries[1..], vals, tags, step.0, errs + Emit(step.1));
      GrowsTrans(st, step.0, RunEntries(lib, entries[1..], vals, tags, step.0, errs + Emit(step.1)).0);
    }
  }

  /** A nil result leaves every error list as it was. */
  lemma {:induction false} SchemaNilKeeps(lib: Strings.Library, s: Schema, data: Value, tags: seq<string>, st: Store)
    requires Has(s, KeysOf(st)) && Defined(s, data)
    ensures var out := RunSchema(lib, s, data, tags, st); out.1.None? ==> Grows(out.0, st)
    decreases s, 2
  {
    var out := RunSchema(lib, s, data, tags, st);
    if s.StructSchema? {
      if AsRecord(data).Some? {
        EntriesNilKeep(lib, s.entries, FieldMap(AsRecord(data).value), tags, st, []);
      }
    } else if out.1.None? {
      GrowsRefl(st);
      match s
      case UintSchema(u) => UintsGrowUpdate(st.uints, u, out.0.uints[u]);
      case IntSchema(i) => IntsGrowUpdate(st.ints, i, out.0.ints[i]);
      case StringSchema(v) => StrsGrowUpdate(st.strs, v, out.0.strs[v]);
      case BoolSchema(b) => BoolsGrowUpdate(st.bools, b, out.0.bools[b]);
    }
  }

  lemma {:induction false} EntriesNilKeep(lib: Strings.Library, entries: seq<Entry>, vals: map<string, Value>, tags: seq<string>, st: Store, errs: seq<string>)
    requires Has(StructSchema(entries), KeysOf(st)) && EntriesDefined(entries, vals)
    ensures var out := RunEntries(lib, entries, vals, tags, st, errs); out.1.None? ==> errs == [] && Grows(out.0, st)
    decreases entries, 0
  {
    if entries == [] {
      assert errs == [] ==> Grows(st, st);
    } else if entries[0].tag in vals {
      var e := entries[0];
      assert e in entries;
      var path := Qualify(tags, e.tag);
      var step := RunSchema(lib, e.schema, vals[e.tag], [path], st);
      SchemaNilKeeps(lib, e.schema, vals[e.tag], [path], st);
      RestHas(entries, st, step.0);
      EntriesNilKeep(lib, entries[1..], vals, tags, step.0, errs + Emit(step.1));
      var out := RunEntries(lib, entries[1..], vals, tags, step.0, errs + Emit(step.1));
      if out.1.None? {
        GrowsTrans(out.0, step.0, st);
      }
    }
  }

  /** The entries after the first are still covered by a store with the same keys. */
  lemma RestHas(entries: seq<Entry>, st: Store, st2: Store)
    requires entries != [] && Has(StructSchema(entries), KeysOf(st)) && KeysOf(st2) == KeysOf(st)
    ensures Has(StructSchema(entries[1..]), KeysOf(st2))
  {
    forall x | x in entries[1..] ensures Has(x.schema, KeysOf(st)) {
      assert x in entries;
    }
  }

  /** schema.Validate(data) returns nil exactly when the schema passes on the state before the
      call. */
  lemma {:induction false} SchemaNilIff(lib: Strings.Library, s: Schema, data: Value, tags: seq<string>, st: Store)
    requires Has(s, KeysOf(st)) && Defined(s, data)
    ensures RunSchema(lib, s, data, tags, st).1.None? <==> Passes(lib, s, data, st)
    decreases s, 2
  {
    if s.StructSchema? && AsRecord(data).Some? {
      EntriesNilIff(lib, s.entries, FieldMap(AsRecord(data).value), tags, st, []);
    }
  }

  /** The loop returns nil exactly when no message was collected before and every remaining
      entry passes. */
  lemma {:induction false} EntriesNilIff(lib: Strings.Library, entries: seq<Entry>, vals: map<string, Value>, tags: seq<string>, st: Store, errs: seq<string>)
    requires Has(StructSchema(entries), KeysOf(st)) && EntriesDefined(entries, vals)
    ensures RunEntries(lib, entries, vals, tags, st, errs).1.None? <==> errs == [] && EntriesPass(lib, entries, vals, st)
    decreases entries, 0
  {
    if entries != [] && entries[0].tag in vals {
      var e := entries[0];
      assert e in entries;
      var path := Qualify(tags, e.tag);
      var step := RunSchema(lib, e.schema, vals[e.tag], [path], st);
      SchemaNilIff(lib, e.schema, vals[e.tag], [path], st);
      RestHas(entries, st, step.0);
      EntriesNilIff(lib, entries[1..], vals, tags, step.0, errs + Emit(step.1));
      if step.1.None? {
        SchemaGrows(lib, e.schema, vals[e.tag], [path], st);
        SchemaNilKeeps(lib, e.schema, vals[e.tag], [path], st);
        EntriesPassStable(lib, entries[1..], vals, st, step.0);
      }
    }
  }

  /** Every entry's tag is present and its value passes its nested schema. */
  ghost predicate AllPass(lib: Strings.Library, entries: seq<Entry>, vals: map<string, Value>, st: Store)
    requires Has(StructSchema(entries), KeysOf(st))
  {
    forall e :: e in entries ==>
      e.tag in vals && Defined(e.schema, vals[e.tag]) && Passes(lib, e.schema, vals[e.tag], st)
  }

  /** The loop's verdict does not depend on the order of the entries: it passes exactly when
      every entry does. */
  lemma {:induction false} EntriesPassAll(lib: Strings.Library, entries: seq<Entry>, vals: map<string, Value>, st: Store)
    requires Has(StructSchema(entries), KeysOf(st)) && EntriesDefined(entries, vals)
    ensures EntriesPass(lib, entries, vals, st) <==> AllPass(lib, entries, vals, st)
  {
    if entries != [] {
      assert entries[0] in entries;
      if entries[0].tag in vals {
        RestHas(entries, st, st);
        EntriesPassAll(lib, entries[1..], vals, st);
        assert forall e :: e in entries ==> e == entries[0] || e in entries[1..];
      }
    }
  }

  /** Go visits a map in an order of its own choosing: two orders of the same entries agree on
      whether Struct.Validate returns nil. */
  lemma VerdictIgnoresOrder(lib: Strings.Library, entries: seq<Entry>, entries2: seq<Entry>, data: Value, tags: seq<string>, st: Store)
    requires forall e :: e in entries <==> e in entries2
    requires Has(StructSchema(entries), KeysOf(st))
    requires Defined(StructSchema(entries), data) && Defined(StructSchema(entries2), data)
    ensures Has(StructSchema(entries2), KeysOf(st))
    ensures RunStruct(lib, entries, data, tags, st).1.None? <==> RunStruct(lib, entries2, data, tags, st).1.None?
  {
    SchemaNilIff(lib, StructSchema(entries), data, tags, st);
    SchemaNilIff(lib, StructSchema(entries2), data, tags, st);
    if AsRecord(data).Some? {
      var vals := FieldMap(AsRecord(data).value);
      EntriesPassAll(lib, entries, vals, st);
      EntriesPassAll(lib, entries2, vals, st);
    }
  }

  /** The first entry, in visiting order, whose tag the value lacks ends the loop with the
      not-found error for its qualified path, whatever was collected before. */
  lemma {:induction false} MissingTagFailsFast(lib: Strings.Library, entries: seq<Entry>, vals: map<string, Value>, tags: seq<string>, st: Store, errs: seq<string>, k: nat)
    requires Has(StructSchema(entries), KeysOf(st)) && EntriesDefined(entries, vals)
    requires k < |entries| && entries[k].tag !in vals
    requires forall j :: 0 <= j < k ==> entries[j].tag in vals
    ensures RunEntries(lib, entries, vals, tags, st, errs).1 == Some(NotFound(Qualify(tags, entries[k].tag)))
    decreases k
  {
    if k > 0 {
      var e := entries[0];
      assert e in entries;
      var step := RunSchema(lib, e.schema, vals[e.tag], [Qualify(tags, e.tag)], st);
      RestHas(entries, st, step.0);
      assert entries[1..][k - 1] == entries[k];
      MissingTagFailsFast(lib, entries[1..], vals, tags, step.0, errs + Emit(step.1), k - 1);
    }
  }

  /** Only the values under schema tags matter: fields the schema does not name are ignored. */
  lemma {:induction false} OnlySchemaTagsMatter(lib: Strings.Library, entries: seq<Entry>, vals: map<string, Value>, vals2: map<string, Value>, tags: seq<string>, st: Store, errs: seq<string>)
    requires Has(StructSchema(entries), KeysOf(st)) && EntriesDefined(entries, vals)
    requires forall e :: e in entries ==> (e.tag in vals <==> e.tag in vals2)
    requires forall e :: e in entries && e.tag in vals ==> vals[e.tag] == vals2[e.tag]
    ensures EntriesDefined(entries, vals2)
    ensures RunEntries(lib, entries, vals, tags, st, errs) == RunEntries(lib, entries, vals2, tags, st, errs)
  {
    if entries != [] {
      var e := entries[0];
      assert e in entries;
      if e.tag in vals {
        var step := RunSchema(lib, e.schema, vals[e.tag], [Qualify(tags, e.tag)], st);
        RestHas(entries, st, step.0);
        assert forall x :: x in entries[1..] ==> x in entries;
        OnlySchemaTagsMatter(lib, entries[1..], vals, vals2, tags, step.0, errs + Emit(step.1));
      }
    }
  }

  /** The state and the collected messages once the loop has visited the first k entries, all
      of whose tags are present. */
  ghost function Visited(lib: Strings.Library, entries: seq<Entry>, vals: map<string, Value>, tags: seq<string>, st: Store, errs: seq<string>, k: nat): (out: (Store, seq<string>))
    requires Has(StructSchema(entries), KeysOf(st)) && EntriesDefined(entries, vals)
    requires k <= |entries| && forall j :: 0 <= j < k ==> entries[j].tag in vals
    ensures KeysOf(out.0) == KeysOf(st)
    ensures Has(StructSchema(entries[k..]), KeysOf(out.0)) && EntriesDefined(entries[k..], vals)
    ensures k < |entries| && entries[k].tag in vals ==>
      Has(entries[k].schema, KeysOf(out.0)) && Defined(entries[k].schema, vals[entries[k].tag])
    decreases k
  {
    if k == 0 then
      assert entries[0..] == entries;
      assert |entries| > 0 ==> entries[0] in entries;
      (st, errs)
    else
      var e := entries[0];
      assert e in entries;
      var step := RunSchema(lib, e.schema, vals[e.tag], [Qualify(tags, e.tag)], st);
      RestHas(entries, st, step.0);
      assert forall j :: 0 <= j < |entries| - 1 ==> entries[1..][j] == entries[j + 1];
      assert entries[1..][k - 1..] == entries[k..];
      Visited(lib, entries[1..], vals, tags, step.0, errs + Emit(step.1), k - 1)
  }

  /** Running the loop is visiting the first k entries and then running the rest. */
  lemma {:induction false} VisitedSplit(lib: Strings.Library, entries: seq<Entry>, vals: map<string, Value>, tags: seq<string>, st: Store, errs: seq<string>, k: nat)
    requires Has(StructSchema(entries), KeysOf(st)) && EntriesDefined(entries, vals)
    requires k <= |entries| && forall j :: 0 <= j < k ==> entries[j].tag in vals
    ensures var pre := Visited(lib, entries, vals, tags, st, errs, k);
      RunEntries(lib, entries, vals, tags, st, errs) == RunEntries(lib, entries[k..], vals, tags, pre.0, pre.1)
    decreases k
  {
    if k == 0 {
      assert entries[0..] == entries;
    } else {
      var e := entries[0];
      assert e in entries;
      var step := RunSchema(lib, e.schema, vals[e.tag], [Qualify(tags, e.tag)], st);
      RestHas(entries, st, step.0);
      assert forall j :: 0 <= j < |entries| - 1 ==> entries[1..][j] == entries[j + 1];
      assert entries[1..][k - 1..] == entries[k..];
      VisitedSplit(lib, entries[1..], vals, tags, step.0, errs + Emit(step.1), k - 1);
    }
  }

  /** Visiting entry k validates its nested schema under its qualified path, on the state the
      first k entries left behind, and appends what that call returns. */
  lemma {:induction false} VisitedStep(lib: Strings.Library, entries: seq<Entry>, vals: map<string, Value>, tags: seq<string>, st: Store, errs: seq<string>, k: nat)
    requires Has(StructSchema(entries), KeysOf(st)) && EntriesDefined(entries, vals)
    requires k < |entries| && forall j :: 0 <= j <= k ==> entries[j].tag in vals
    ensures var pre := Visited(lib, entries, vals, tags, st, errs, k);
      var e := entries[k];
      var step := RunSchema(lib, e.schema, vals[e.tag], [Qualify(tags, e.tag)], pre.0);
      Visited(lib, entries, vals, tags, st, errs, k + 1) == (step.0, pre.1 + Emit(step.1))
    decreases k
  {
    var e := entries[0];
    assert e in entries;
    var step := RunSchema(lib, e.schema, vals[e.tag], [Qualify(tags, e.tag)], st);
    RestHas(entries, st, step.0);
    assert forall j :: 0 <= j < |entries| - 1 ==> entries[1..][j] == entries[j + 1];
    if k > 0 {
      VisitedStep(lib, entries[1..], vals, tags, step.0, errs + Emit(step.1), k - 1);
    }
  }

  /** The k-th entry the loop visits, when it and every entry before it are present, is
      validated with its path-qualified tag: a scalar validator stores that path as its tag and
      reports a type mismatch as "<path> failed validation for <T>", and a nested Struct that
      rejects its value reports "path failed validation for <Struct>". */
  lemma EntryUsesPath(lib: Strings.Library, entries: seq<Entry>, vals: map<string, Value>, tags: seq<string>, st: Store, errs: seq<string>, k: nat)
    requires Has(StructSchema(entries), KeysOf(st)) && EntriesDefined(entries, vals)
    requires k < |entries| && forall j :: 0 <= j <= k ==> entries[j].tag in vals
    ensures var pre := Visited(lib, entries, vals, tags, st, errs, k);
      var post := Visited(lib, entries, vals, tags, st, errs, k + 1);
      var e := entries[k];
      var path := Qualify(tags, e.tag);
      var step := RunSchema(lib, e.schema, vals[e.tag], [path], pre.0);
      RunEntries(lib, entries, vals, tags, st, errs) == RunEntries(lib, entries[k + 1..], vals, tags, post.0, post.1) &&
      post == (step.0, pre.1 + Emit(step.1)) &&
      (e.schema.UintSchema? ==>
        var kind := pre.0.uints[e.schema.u].kind;
        step.0.uints[e.schema.u].tag == Some(path) &&
        (!Uints.Accepts(kind, vals[e.tag]) ==> step.1 == Some("<" + path + "> " + MismatchText(TypeName(kind))))) &&
      (e.schema.IntSchema? ==>
        var kind := pre.0.ints[e.schema.i].kind;
        step.0.ints[e.schema.i].tag == Some(path) &&
        (!Ints.Accepts(kind, vals[e.tag]) ==> step.1 == Some("<" + path + "> " + MismatchText(TypeName(kind))))) &&
      (e.schema.StringSchema? ==>
        step.0.strs[e.schema.s].tag == Some(path) &&
        (!Strings.Accepts(vals[e.tag]) ==> step.1 == Some("<" + path + "> " + MismatchText("String")))) &&
      (e.schema.BoolSchema? ==>
        step.0.bools[e.schema.b].tag == Some(path) &&
        (!Bools.Accepts(vals[e.tag]) ==> step.1 == Some("<" + path + "> " + MismatchText("Bool")))) &&
      (e.schema.StructSchema? && AsRecord(vals[e.tag]).None? ==>
        step.1 == Some(path + " failed validation for <Struct>"))
  {
    VisitedSplit(lib, entries, vals, tags, st, errs, k + 1);
    VisitedStep(lib, entries, vals, tags, st, errs, k);
  }

  /** The kind switch: a pointer to a struct is validated as the struct itself. */
  lemma PointerIsDereferenced(lib: Strings.Library, entries: seq<Entry>, fields: seq<Field>, tags: seq<string>, st: Store)
    requires Has(StructSchema(entries), KeysOf(st)) && Defined(StructSchema(entries), VRecord(fields))
    ensures Defined(StructSchema(entries), VPtr(VRecord(fields)))
    ensures RunStruct(lib, entries, VPtr(VRecord(fields)), tags, st) == RunStruct(lib, entries, VRecord(fields), tags, st)
  {
  }

  /** Any other value, a pointer to a pointer included, is rejected with the Struct
      mismatch message and changes no validator. */
  lemma OtherKindsRejected(lib: Strings.Library, entries: seq<Entry>, data: Value, tags: seq<string>, st: Store)
    requires Has(StructSchema(entries), KeysOf(st)) && Defined(StructSchema(entries), data)
    requires !data.VRecord? && !(data.VPtr? && data.target.VRecord?)
    ensures RunStruct(lib, entries, data, tags, st) == (st, Some(StructMismatch(tags)))
  {
  }

  /** Every entry's tag is among the values. */
  predicate AllTagsPresent(entries: seq<Entry>, vals: map<string, Value>)
  {
    forall e :: e in entries ==> e.tag in vals
  }

  /** The results of the nested Validate calls, one per entry in visiting order, each on the
      state the previous ones left behind; defined when no tag is missing. */
  ghost function NestedResults(lib: Strings.Library, entries: seq<Entry>, vals: map<string, Value>, tags: seq<string>, st: Store): (rs: seq<Option<string>>)
    requires Has(StructSchema(entries), KeysOf(st)) && EntriesDefined(entries, vals) && AllTagsPresent(entries, vals)
    ensures |rs| == |entries|
    decreases entries
  {
    if entries == [] then []
    else
      var e := entries[0];
      assert e in entries;
      var step := RunSchema(lib, e.schema, vals[e.tag], [Qualify(tags, e.tag)], st);
      RestHas(entries, st, step.0);
      [step.1] + NestedResults(lib, entries[1..], vals, tags, step.0)
  }

  /** With every tag present, the loop's error is the messages collected before followed by one
      message per non-nil nested result, joined by ", ", or nil when there are none. */
  lemma {:induction false} AggregateCollects(lib: Strings.Library, entries: seq<Entry>, vals: map<string, Value>, tags: seq<string>, st: Store, errs: seq<string>)
    requires Has(StructSchema(entries), KeysOf(st)) && EntriesDefined(entries, vals) && AllTagsPresent(entries, vals)
    ensures RunEntries(lib, entries, vals, tags, st, errs).1 == Report(errs + Collect(NestedResults(lib, entries, vals, tags, st)))
  {
    if entries == [] {
      assert errs + [] == errs;
    } else {
      var e := entries[0];
      assert e in entries;
      var step := RunSchema(lib, e.schema, vals[e.tag], [Qualify(tags, e.tag)], st);
      RestHas(entries, st, step.0);
      var rest := NestedResults(lib, entries[1..], vals, tags, step.0);
      AggregateCollects(lib, entries[1..], vals, tags, step.0, errs + Emit(step.1));
      ReportCons(errs, step.1, rest);
    }
  }

  /** Collecting one result in front of the rest is emitting it, then collecting the rest. */
  lemma ReportCons(errs: seq<string>, o: Option<string>, rest: seq<Option<string>>)
    ensures errs + Emit(o) + Collect(rest) == errs + Collect([o] + rest)
  {
    CollectCons(o, rest);
    var e, c := Emit(o), Collect(rest);
    assert errs + e + c == errs + (e + c);
  }

  /** Each non-nil nested result contributes exactly one message to the aggregate. */
  lemma AggregateCounts(lib: Strings.Library, entries: seq<Entry>, vals: map<string, Value>, tags: seq<string>, st: Store)
    requires Has(StructSchema(entries), KeysOf(st)) && EntriesDefined(entries, vals) && AllTagsPresent(entries, vals)
    ensures |Collect(NestedResults(lib, entries, vals, tags, st))| == |Failing(NestedResults(lib, entries, vals, tags, st))|
  {
    CollectCount(NestedResults(lib, entries, vals, tags, st));
  }
}
