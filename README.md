# go-z validators in Dafny

This project models the core of `z`, a small Go library for validating values against a schema.
The library has scalar validators for unsigned integers, integers, strings and bools. Each one is
a mutable object: it holds an optional tag, the last value it extracted, a chain of rules and a
list of errors. Its `Validate` method does four things:

- a tag passed to the call replaces the stored tag;
- the value is checked against the exact Go type, and a mismatch returns one message and runs no rule;
- otherwise every rule runs in attachment order, and each failing rule appends its message to `errors`;
- the call returns nil when `errors` is empty, and otherwise the list joined by `", "`.

The structural validator `Struct` maps field tags to nested schemas. It takes a struct, or a
pointer to one, and builds a map from each field's `z` tag to the field's value. It then
validates every schema entry against the value under its tag, using the dotted path
`parent.tag`. It stops at the first tag the value lacks and joins the nested errors.
`internal.ValidationErrors` wraps a list of messages and has three accessors. Each accessor panics when the list is empty.

Module layout, one module per Go file:

- `Uints` — uint.go
- `Ints` — int.go
- `Strings` — string.go
- `Bools` — bool.go
- `Structs` — struct.go
- `Internal` — internal/error.go

Shared modules:

- `RuleChain`: message resolution and the collection of failures along a chain.
- `Values`: the closed universe of Go values that reflection would inspect.
- `Text`: `strings.Join`, containment, decimal rendering and UTF-8 length.
- `Wrappers`: `Option`.

Each scalar validator is a Dafny `class` with the Go struct's fields. Its `Validate` and its
rule loop `RunRules` are proved against a pure step function `Run(state, data, tags)`. `Run`
gives the new field values and the returned error, with `None` standing for nil. A rule closure
becomes a `Rule` datatype, which a dispatcher evaluates:

- `Holds` is the pass condition;
- `Message` gives the failure text;
- `Check` is what the closure returns.

`Struct.Validate` is two things:

- the method `ValidateStruct`, which calls the nested validator objects and updates them in place;
- the function `RunStruct`, which threads a `Store` of every validator's state through the same iteration.

The methods are proved equal to the functions on a snapshot (`Snap`) of the validator objects.
So a validator object shared by two schema entries is updated twice, as in Go. The schema is a
sequence of entries. Its order stands for the one order in which Go's map iteration visits the
entries in a given call. The lemmas about the verdict do not depend on that order.

Where the library's description and the code differ, the model follows the code:

- The code never clears `errors`, so a validator that failed once fails on every later call (`Uints.FailureIsSticky`).
- The code keeps every field in the tag map, including fields with an empty tag or `"-"`.
- The code iterates the schema map in Go's unspecified order, not in sorted order.
- The code has no optional short-circuit: a pointer to a scalar is a type mismatch.
- For a nil input to `Struct.Validate`, the code panics rather than returning a message.
- `NewValidationErrors` accepts any list, the empty one included, and does not panic. Only the accessors `One`, `All` and `Error` panic on an empty list. The model's accessors therefore require a non-empty list, and its constructor does not.

## Model

| member | source | states |
|---|---|---|
| RuleChain.Resolve | uint.go:55-60 | an explicit msg[0] wins; otherwise a set tag gives exactly "<tag> " followed by the generated text; otherwise the untagged text |
| RuleChain.Collect | uint.go:39-43 | the messages of the failing outcomes, in order; a chain never reports more messages than it has rules |
| RuleChain.CollectStep | uint.go:39-43 | running one more rule appends exactly what that rule emits to the messages of the rules before it |
| RuleChain.CollectConcat | uint.go:39-43 | running two chains one after the other reports the first chain's messages and then the second's |
| RuleChain.CollectSnoc | uint.go:39-43 | appending one rule to a chain appends exactly that rule's message, if it failed, to the chain's messages |
| RuleChain.CollectCons | struct.go:46-52 | a result in front of a sequence of results contributes its message, if any, ahead of the messages of the rest |
| RuleChain.CollectEmptyIff | uint.go:39-47 | a chain reports no message exactly when every outcome is a pass |
| RuleChain.CollectCount | uint.go:39-43 | the number of messages equals the number of failing rules |
| RuleChain.CollectAllFailing | uint.go:39-43 | when every rule fails, message k is the message of rule k, in attachment order |
| RuleChain.Report | uint.go:44-47 | nil exactly when the error list is empty, otherwise its ", " join; a single error comes back unchanged |
| Text.Join | uint.go:45 | strings.Join: the elements in order with the separator between neighbours, "" for none |
| Text.JoinConcat | struct.go:47-51 | joining two non-empty lists put together is joining each and putting one separator between, so a nested joined message reads like part of one flat list |
| Text.JoinStartsWithFirst | uint.go:45 | a join of a non-empty list begins with its first element |
| Text.JoinContainsEach | uint.go:45 | every element occurs in the joined string |
| Text.ByteLength | string.go:45 | Go's len counts UTF-8 bytes: at least one and at most four per character |
| Uints.Holds | uint.go:53-149 | pass conditions: Lt(max) value < max (53); Gt(min) value > min (69); Lte(max) value <= max (85); Gte(min) value >= min (101); Eq(to) value == to (117); NotEq(to) value != to (133); NonZero value != 0 (149) |
| Uints.Message | uint.go:55-60 | a failing rule's message: msg[0] when given; otherwise, with a tag, a text that begins with "<tag> "; untagged, the generated text, and for Gte "<T> failed validation for <Gte(n)>" (103-108) |
| Uints.Accepts | uint.go:33 | the exact-type check data.(T): an integer of exactly the validator's kind |
| Uints.Passes | uint.go:33-47 | Validate returns nil exactly when the type matches, no error was left from earlier calls and every rule holds |
| Uints.OutcomesCount | uint.go:39-43 | one message per failing rule; no message exactly when every rule holds |
| Uints.Run | uint.go:28-48 | a given tag replaces the stored one, and without one the stored tag stays; on a type mismatch, errors is unchanged, value is 0 and the result is the single mismatch message; otherwise value is the data, errors is the old list plus exactly one message per failing rule, and the result is nil iff that list is empty, else the ", " join; nil iff the type matches, no earlier error and every Holds; rules and kind unchanged; a well-typed value lies in the kind's range |
| Uints.ComplementaryPairs | uint.go:50-144 | Lt(n) with Gte(n), Gt(n) with Lte(n), and Eq(n) with NotEq(n): each pair reports exactly one message for any value |
| Uints.FailureIsSticky | uint.go:39-46 | once errors is non-empty, this call and every later call return an error, whatever the data |
| Uints.ValidatableUint.constructor | uint.go:162-180 | Uint(), Uint8() … Uint64(): no tag, value 0, no rules, no errors |
| Uints.ValidatableUint.Validate | uint.go:28-48 | the new fields and the result are exactly those of Run on the old fields |
| Uints.ValidatableUint.RunRules | uint.go:39-43 | the loop appends the messages of the failing rules, in attachment order |
| Uints.ValidatableUint.Lt | uint.go:50-64 | appends exactly the Lt rule, keeps the earlier rules and returns the receiver |
| Uints.ValidatableUint.Gt | uint.go:66-80 | appends exactly the Gt rule, keeps the earlier rules and returns the receiver |
| Uints.ValidatableUint.Lte | uint.go:82-96 | appends exactly the Lte rule, keeps the earlier rules and returns the receiver |
| Uints.ValidatableUint.Gte | uint.go:98-112 | appends exactly the Gte rule, keeps the earlier rules and returns the receiver |
| Uints.ValidatableUint.Eq | uint.go:114-128 | appends exactly the Eq rule, keeps the earlier rules and returns the receiver |
| Uints.ValidatableUint.NotEq | uint.go:130-144 | appends exactly the NotEq rule, keeps the earlier rules and returns the receiver |
| Uints.ValidatableUint.NonZero | uint.go:146-160 | appends exactly the NonZero rule, keeps the earlier rules and returns the receiver |
| Ints.Holds | int.go:59-77 | LT(max) fails only when value > max (59); GT(min) fails only when value < min (77) |
| Ints.Message | int.go:60-68 | a failing rule's message: msg[0] when given; otherwise untagged text when no tag is set, and with a tag a text that begins with "<tag> " |
| Ints.Accepts | int.go:38 | the exact-type check data.(T): an integer of exactly the validator's kind |
| Ints.Passes | int.go:38-54 | Validate returns nil exactly when the type matches, no error was left from earlier calls and every rule holds |
| Ints.OutcomesCount | int.go:46-50 | one message per failing rule; no message exactly when every rule holds |
| Ints.Run | int.go:33-55 | the same fields and results as Uints.Run, for the ten integer kinds, with the mismatch message tag-qualified when a tag is set |
| Ints.BoundsAreInclusive | int.go:57-91 | LT(n) and GT(n) accept n itself; the chain [GT(lo), LT(hi)] reports nothing exactly when lo <= value <= hi |
| Ints.ValidatableInt.constructor | int.go:93-131 | Int() … Uint64(): no tag, value 0, no rules, no errors |
| Ints.ValidatableInt.Validate | int.go:33-55 | the new fields and the result are exactly those of Run on the old fields |
| Ints.ValidatableInt.RunRules | int.go:46-50 | the loop appends the messages of the failing rules, in attachment order |
| Ints.ValidatableInt.LT | int.go:57-73 | appends exactly the LT rule, keeps the earlier rules and returns the receiver |
| Ints.ValidatableInt.GT | int.go:75-91 | appends exactly the GT rule, keeps the earlier rules and returns the receiver |
| Strings.Holds | string.go:45-110 | Min(n) byte length > n (45); Max(n) byte length < n (61); Email: the address parser succeeds and gives back exactly the input (76-78); Regex: the pattern matches (94); Custom(p): p(value) (110) |
| Strings.Message | string.go:47-52 | a failing rule's message: msg[0] when given; otherwise, with a tag, a text that begins with "<tag> "; untagged, the generated text, which for Regex holds the pattern |
| Strings.Accepts | string.go:25 | the exact-type check data.(string) |
| Strings.Passes | string.go:25-39 | Validate returns nil exactly when the value is a string, no error was left from earlier calls and every rule holds |
| Strings.OutcomesCount | string.go:31-35 | one message per failing rule; no message exactly when every rule holds |
| Strings.Run | string.go:20-40 | the same fields and results as Uints.Run, on strings: the mismatch message is "failed validation for <String>" or its tagged form, and the mismatched value is "" |
| Strings.LengthWindow | string.go:42-72 | [Min(lo), Max(hi)] reports nothing exactly when lo < byte length < hi, so Min(n) with Max(n+1) rejects every string |
| Strings.RegexMessageNamesPattern | string.go:91-105 | the generated Regex message contains the pattern, tagged or not |
| Strings.ValidatableString.constructor | string.go:123-125 | String(): no tag, value "", no rules, no errors |
| Strings.ValidatableString.Validate | string.go:20-40 | the new fields and the result are exactly those of Run on the old fields |
| Strings.ValidatableString.RunRules | string.go:31-35 | the loop appends the messages of the failing rules, in attachment order |
| Strings.ValidatableString.Min | string.go:42-56 | appends exactly the Min rule, keeps the earlier rules and returns the receiver |
| Strings.ValidatableString.Max | string.go:58-72 | appends exactly the Max rule, keeps the earlier rules and returns the receiver |
| Strings.ValidatableString.Email | string.go:74-89 | appends exactly the Email rule, keeps the earlier rules and returns the receiver |
| Strings.ValidatableString.Regex | string.go:91-105 | appends exactly the Regex rule, keeps the earlier rules and returns the receiver |
| Strings.ValidatableString.Custom | string.go:107-121 | appends exactly the Custom rule, keeps the earlier rules and returns the receiver |
| Bools.Holds | bool.go:42-58 | True passes iff the value is true (42); False passes iff the value is false (58) |
| Bools.Message | bool.go:45-51 | a failing rule's message: msg[0] when given; otherwise untagged text when no tag is set, and with a tag a text that begins with "<tag> " |
| Bools.Accepts | bool.go:23 | the exact-type check data.(bool) |
| Bools.Passes | bool.go:23-37 | Validate returns nil exactly when the value is a bool, no error was left from earlier calls and every rule holds |
| Bools.OutcomesCount | bool.go:29-33 | one message per failing rule; no message exactly when every rule holds |
| Bools.Run | bool.go:18-38 | the same fields and results as Uints.Run, on bools: the mismatch message is "failed validation for <Bool>" or its tagged form, and the mismatched value is false |
| Bools.TrueAndFalseAddOne | bool.go:40-70 | with True and False attached, in either order, a bool adds exactly one message: the message of the rule it contradicts |
| Bools.ValidatableBool.constructor | bool.go:72-74 | Bool(): no tag, value false, no rules, no errors |
| Bools.ValidatableBool.Validate | bool.go:18-38 | the new fields and the result are exactly those of Run on the old fields |
| Bools.ValidatableBool.RunRules | bool.go:29-33 | the loop appends the messages of the failing rules, in attachment order |
| Bools.ValidatableBool.True | bool.go:40-54 | appends exactly the True rule, keeps the earlier rules and returns the receiver |
| Bools.ValidatableBool.False | bool.go:56-70 | appends exactly the False rule, keeps the earlier rules and returns the receiver |
| Structs.Qualify | struct.go:40-42 | a child's path: "parent.tag" when a parent tag is given, else the bare tag; the path always ends with the tag |
| Structs.NotFound | struct.go:44 | the fail-fast message "tag <path> not found for <Struct>" |
| Structs.StructMismatch | struct.go:25-28 | the rejection "<tags[0]> failed validation for <Struct>" when tagged, "failed validation for <Struct>" otherwise, with no angle brackets around the tag |
| Structs.Panics | struct.go:15-19 | the inputs on which reflection panics: the nil interface, a nil pointer, a pointer to the nil interface |
| Structs.AsRecord | struct.go:15-29 | the kind switch: a struct is taken as it is, a pointer is dereferenced once and must then be a struct, anything else is rejected |
| Structs.FieldMap | struct.go:32-35 | each field's tag maps to that field's value, a later field replacing an earlier one with the same tag |
| Structs.Defined | struct.go:15-46 | validation reaches no panic: every Struct reached in iteration order, up to the first missing tag, gets an input other than those of Panics |
| Structs.Passes | struct.go:37-53 | the nil condition on the state before the call: the scalar's own Passes, or for a Struct a struct value having every schema tag, each of whose values passes in turn |
| Structs.RunSchema | struct.go:46 | the set of validators in the store stays the same; what a nested Validate does is stated by the lemmas below |
| Structs.RunStruct | struct.go:13-54 | the set of validators stays the same; the behaviour is stated by the lemmas below |
| Structs.RunEntries | struct.go:37-53 | the set of validators stays the same; the behaviour is stated by the lemmas below |
| Structs.BuildFieldMap | struct.go:32-35 | the loop builds exactly FieldMap of the fields |
| Structs.FieldMapLastWins | struct.go:32-35 | a tag is in the map exactly when some field carries it, and it maps to the value of the last such field |
| Structs.ValidateSchema | struct.go:46 | the validators in d and the result are exactly those of RunSchema on the old snapshot |
| Structs.ValidateUint | struct.go:46 | the uint validator alone changes, as Uints.Run says; no other validator changes |
| Structs.ValidateInt | struct.go:46 | the int validator alone changes, as Ints.Run says; no other validator changes |
| Structs.ValidateString | struct.go:46 | the string validator alone changes, as Strings.Run says; no other validator changes |
| Structs.ValidateBool | struct.go:46 | the bool validator alone changes, as Bools.Run says; no other validator changes |
| Structs.ValidateStruct | struct.go:13-54 | the validators in d and the result are exactly those of RunStruct on the old snapshot |
| Structs.ValidateEntry | struct.go:39-48 | one loop pass keeps the invariant that the rest of the loop yields RunEntries of the whole |
| Structs.SchemaGrows | struct.go:46-48 | a nested Validate keeps every validator's kind and rules, and each error list only gains messages |
| Structs.EntriesGrow | struct.go:38-49 | the loop keeps every validator's kind and rules, and each error list only gains messages |
| Structs.SchemaNilKeeps | struct.go:46-48 | a nil result from a nested Validate leaves every error list as it was |
| Structs.EntriesNilKeep | struct.go:37-53 | a nil result from the loop means nothing was collected and every error list is as it was |
| Structs.PassesStable | struct.go:46-48 | whether a schema passes depends only on the kinds, rules and errors of its validators |
| Structs.EntriesPassStable | struct.go:38-49 | whether the remaining entries pass depends only on the kinds, rules and errors of the validators |
| Structs.SchemaNilIff | struct.go:37-53 | Validate returns nil iff the schema passes on the state before the call: for a Struct, the value is a struct or a pointer to one, every schema tag is present, and every nested value passes |
| Structs.EntriesNilIff | struct.go:37-53 | the loop returns nil iff nothing was collected before and every remaining entry's tag is present and its value passes |
| Structs.EntriesPassAll | struct.go:38-49 | the entries pass one after the other exactly when each entry passes on its own, whatever their order |
| Structs.VerdictIgnoresOrder | struct.go:38 | any two visiting orders of the same entries agree on whether Struct.Validate returns nil |
| Structs.MissingTagFailsFast | struct.go:39-45 | the first entry, in visiting order, whose tag is absent ends the loop with "tag <path> not found for <Struct>" for its qualified path, and messages collected before are discarded |
| Structs.OnlySchemaTagsMatter | struct.go:38-39 | two value maps that agree on the schema tags give the same result and the same validator states, so fields under other tags are never validated |
| Structs.Visited | struct.go:38-49 | the state and the collected messages after the loop has visited its first k entries; the remaining entries still find their validators and stay free of panics |
| Structs.VisitedSplit | struct.go:38-53 | the loop's result is that of visiting the first k entries and then running the rest from there |
| Structs.VisitedStep | struct.go:39-48 | visiting entry k runs its nested Validate with the single tag Qualify(tags, tag), on the state the first k entries left, and appends its result |
| Structs.EntryUsesPath | struct.go:40-46 | entry k, when it and every earlier entry are present, is validated under its qualified path: a scalar validator then stores that path as its tag and reports a type mismatch as "<path> failed validation for <T>", and a nested Struct rejects a non-struct as "path failed validation for <Struct>" |
| Structs.PointerIsDereferenced | struct.go:18-22 | a pointer to a struct is validated exactly as the struct itself |
| Structs.OtherKindsRejected | struct.go:15-29 | any other value, a pointer to a pointer included, returns the Struct mismatch message and changes no validator |
| Structs.AggregateCollects | struct.go:46-52 | with every tag present, the error is the earlier messages followed by one message per non-nil nested result, joined by ", ", and nil when there are none |
| Structs.AggregateCounts | struct.go:46-52 | every non-nil nested result contributes exactly one message to the aggregate: the number of messages is the number of failing entries |
| Structs.ReportCons | struct.go:46-52 | appending one nested result's message to the collected errors, then the rest's, is the same as collecting all of them at once |
| Internal.NewValidationErrors | internal/error.go:11-13 | stores the messages unchanged and in order; for a non-empty list, All gives them back and One gives the first |
| Internal.ValidationErrors.One | internal/error.go:15-20 | on a non-empty list: the first message, equal to All()[0], and a prefix of Error() |
| Internal.ValidationErrors.All | internal/error.go:22-27 | on a non-empty list: every message, unchanged and in order |
| Internal.ValidationErrors.Error | internal/error.go:29-34 | on a non-empty list: the " \| " join; a single message is its own joined form, and every message occurs in it |
| Internal.ErrorOfConcat | internal/error.go:29-34 | the joined form of two lists put together is their two joined forms with " \| " between them |

## Left out

- float.go is not part of this model. Its rule chain has the shape of int.go's, over floating point, with NaN comparisons and `%g` formatting.
- z.go and types.go only declare the `Validatable` interface. The `Schema` datatype stands for it.
- The duplicate `Uint` … `Uint64` constructors exist in both int.go and uint.go. Each file is modelled as written: `Ints.ValidatableInt.constructor` takes any of the ten kinds.
- `%T` and `%d` rendering: `TypeName` is the fixed Go name of each kind, and `IntToString` renders decimal digits with a leading `-`. Go's formatter itself is not specified.
- `mail.ParseAddress` and `regexp.MatchString` are foreign library calls. Both are passed in as the functions of `Strings.Library`. A pattern that `regexp.MustCompile` rejects would panic; that panic is not modelled.
- Reflection is replaced by the `Value` datatype. `Struct.Validate` panics on a nil input, a nil pointer and a pointer to a nil interface. `Structs.Defined` excludes those inputs, following the same fail-fast iteration. The panic that `Interface()` raises on an unexported field is not modelled: every field is taken as readable.
- A nil `Validatable` stored as the schema of a `Struct` entry panics at struct.go:46. The `Schema` datatype has no nil case, so the model cannot express that panic.
- Go strings are arbitrary byte sequences, but a Dafny `string` is a sequence of Unicode scalar values. The model covers only strings that are valid UTF-8. `Text.ByteLength` agrees with Go's `len` on those strings. A string holding invalid UTF-8 cannot be given to `Strings.Run`, `Strings.Holds` or the `Library` matchers, although Go accepts one.
- `Custom` takes a user callback `func(string) bool`. The model takes it as a pure, total `string -> bool`. A Go callback that panics, or that keeps state between calls, is not modelled. With such a callback, the verdict could depend on the order in which entries are visited, which `Structs.VerdictIgnoresOrder` rules out.
- Go map iteration order is unspecified. The model validates the entries in the order of a sequence. Only the nil verdict is proved independent of that order, not the order of the messages.
- `Validate` stores `&tags[0]`, so the stored tag aliases the caller's slice. Likewise, each rule closure captures the attacher's variadic `msg` slice (for example uint.go:50-56), so a call `Lt(5, ms...)` followed by a write to `ms[0]` changes that rule's message. The model copies the tag string and the `msg` sequence into the state and the `Rule` value, so a later write to either slice is not reflected.
- Concurrency: the validators are not safe to share between goroutines, and the model is sequential.
- The attachers' parameter has the Go type `T` (or `int` for `Min` and `Max`). The model requires the parameter to lie in that type's range, which Go's type system enforces.
- `int` and `uint` are taken to be 64 bits wide.
