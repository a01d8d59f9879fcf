# p-json value builder, in Dafny

This project models the core of `p-json`. A PEG grammar matcher turns JSON text into a
tree of rule-labelled matches. The value builder then turns that tree, by structural
recursion, into a `JsonValue` (null, bool, number, string, array, object) or an error.
The builder is `parse_value`, `parse_array` and `parse_object` in `p-json/src/main.rs`.

- `wrappers.dfy`: `Option` and `Result`, usable with `:-`. This is the model of the
  source's `anyhow::Result` and `?`.
- `parse_tree.dfy`: the matcher's output. A `Node` holds a rule label, the matched
  substring, and its children in input order. Labels the builder does not dispatch on are
  `OtherRule(name)`.
- `json_builder.dfy`: `JsonValue`, `Error` and the builder.
  - `Build` is `parse_value`.
  - `BuildArray` is `parse_array`.
  - `BuildEntry` is the per-entry closure of `parse_object`.
  - `BuildObject` is `parse_object`. It is a left fold that inserts `acc[k := v]`, so the
    last write wins, as in the `HashMap` collect.
  - The array and object walks go over the parent's children by index and stop at the
    first failure.
- `json_properties.dfy`: the promises, stated against the input tree.
  - Per-rule dispatch.
  - Arrays keep their length and order.
  - Objects have the key set of their entries, with last-write-wins.
  - Errors are those of the first failing child or entry.
  - A declarative predicate `Buildable` holds exactly when the build succeeds.
  - Trees whose visited nodes are all handled never reach the panic.
- `json_scenarios.dfy`: the unit tests, replayed on hand-built trees.

Numbers: `JsonValue<F>` is generic in `F`, which stands for the source's `f64`. The
builder takes the text-to-float conversion as a parameter `parseNumber: string ->
Option<F>`. `None` means the conversion rejected the text.

The unhandled-rule arm: the source calls `panic!`. The model returns
`Failure(UnhandledRule(rule))` instead. Evaluation is left to right and stops at the
first failure, so the model returns that error exactly when the source would abort.

Error messages: the model keeps distinct error constructors. The source returns an
`anyhow` error built from a message or from the standard conversion error.

## Model

| member | source | states |
|---|---|---|
| JsonBuilder.Build | p-json/src/main.rs:61-81 | an `UnhandledRule` failure, possibly propagated from any depth, always carries a label outside the seven handled ones |
| JsonBuilder.BuildArray | p-json/src/main.rs:42-44 | a successful walk over children `i..` yields exactly one element per child; unhandled-rule failures carry unhandled labels |
| JsonBuilder.BuildEntry | p-json/src/main.rs:48-56 | unhandled-rule failures of an entry carry unhandled labels |
| JsonBuilder.BuildObject | p-json/src/main.rs:46-59 | a successful fold keeps every key already in the accumulator; unhandled-rule failures carry unhandled labels |
| JsonProperties.BuildNull | p-json/src/main.rs:66 | a `null` node builds to `Null` whatever its text or children |
| JsonProperties.BuildBool | p-json/src/main.rs:65 | a `bool` node succeeds iff its text is `true` or `false`, giving `Bool(text == "true")`; otherwise it fails with `InvalidBool(text)` |
| JsonProperties.BuildChars | p-json/src/main.rs:63 | a `chars` node never fails and yields its matched text verbatim |
| JsonProperties.BuildNumber | p-json/src/main.rs:64 | a `number` node succeeds iff the float conversion accepts its text, giving that number; otherwise it fails with `InvalidNumber(text)` |
| JsonProperties.BuildValueWrapper | p-json/src/main.rs:69-75 | a `value` node builds to exactly the build of its first child, and fails with `ExpectedValue` when it has none |
| JsonProperties.ArrayFrom | p-json/src/main.rs:42-44 | the walk over children `i..` succeeds iff every one of them builds; then element `j - i` is the build of child `j`; otherwise the error is that of the first failing child |
| JsonProperties.ArrayElements | p-json/src/main.rs:42-44 | an `array` node succeeds iff every child builds; then it is an `Array` with one element per child, element `j` being the build of child `j` |
| JsonProperties.ArrayFirstError | p-json/src/main.rs:43 | a failing `array` node fails with the error of its first failing child, all earlier children having built |
| JsonProperties.EntryErrors | p-json/src/main.rs:49-55 | an entry with no children fails with `ExpectedKey`; one with a single child fails with `ExpectedValue`; otherwise it yields (first child's text, build of second child) or that build's error |
| JsonProperties.ObjectFailureFrom | p-json/src/main.rs:48-58 | the fold over entries `i..` fails iff some entry fails, with the first failing entry's error, whatever the accumulator |
| JsonProperties.ObjectSuccessFrom | p-json/src/main.rs:46-59 | a successful fold over entries `i..` has the keys of the accumulator plus those of the entries; untouched accumulator keys keep their values; each entry key holds the value of its last entry |
| JsonProperties.ObjectFields | p-json/src/main.rs:46-59 | a successful `object` node has a key and a value for every entry; its key set is the set of entry keys; each key maps to the build of the value of the last entry with that key |
| JsonProperties.ObjectFirstError | p-json/src/main.rs:48-58 | an `object` node fails iff some entry fails, and then with the error of the first failing entry |
| JsonProperties.BuildSucceedsIff | p-json/src/main.rs:61-81 | a build succeeds iff the tree is `Buildable`: every visited node has a handled label, leaves hold convertible text, and entries and `value` nodes have the children they need |
| JsonProperties.NoPanic | p-json/src/main.rs:76-78 | on a tree whose visited nodes all carry handled labels, the build never reaches the unhandled-rule arm |
| JsonScenarios.NullScenario | p-json/src/main.rs:88-93 | `null` builds to `Null` |
| JsonScenarios.BoolScenario | p-json/src/main.rs:96-106 | `true` and `false` build to the two booleans, and `True` is rejected |
| JsonScenarios.StringScenario | p-json/src/main.rs:133-142 | `hello \" world\"` builds to a string holding the escapes verbatim |
| JsonScenarios.ArrayScenario | p-json/src/main.rs:145-156 | `["hello", "world"]` builds to the two strings in order |
| JsonScenarios.ObjectScenario | p-json/src/main.rs:159-171 | `{"hello": "world"}` builds to the one-entry map |
| JsonScenarios.DuplicateKeyScenario | p-json/src/main.rs:58 | of two entries with the same key, the later value is kept |
| JsonScenarios.MissingValueScenario | p-json/src/main.rs:54 | an entry without a value fails the whole object with `ExpectedValue`, even after a good entry |

## Left out

- `main`, its demonstration document and `println!` (p-json/src/main.rs:21-40): I/O and glue.
- The grammar file `json.pest` and the generated `JsonParser` and `Rule` (p-json/src/main.rs:7-9) are not part of this model. The tree they produce is the input. The scenario trees are hand-built shapes assumed for the test inputs.
- The conversion from text to `f64` (p-json/src/main.rs:64) is floating point. It is the parameter `parseNumber`. The float tests (p-json/src/main.rs:109-131) are therefore not replayed.
- The `panic!` abort (p-json/src/main.rs:76-78) is modelled as the error `UnhandledRule`. It is not modelled as process termination.
- `HashMap` hashing and iteration order: only the key-to-value mapping is modelled, as a Dafny `map`.
- Error message texts: each failure is a distinct `Error` constructor. The model does not keep `anyhow`'s message strings.
- Recursion depth: the source has no depth bound and may exhaust its stack on deeply nested input. Dafny's unbounded recursion does not model that.
