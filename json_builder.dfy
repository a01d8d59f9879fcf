/** The parse-tree to value builder: `parse_value`, `parse_array` and
    `parse_object` of p-json/src/main.rs. */
module JsonBuilder {
  import opened Wrappers
  import opened ParseTree

  /** A JSON value. `F` stands for the 64-bit float type of the source; the
      model never looks inside a number. */
  datatype JsonValue<F> =
    | Null
    | Bool(b: bool)
    | Number(n: F)
    | String(s: string)
    | Array(items: seq<JsonValue<F>>)
    | Object(fields: map<string, JsonValue<F>>)

  /** Why a build fails. */
  datatype Error =
    | ExpectedKey                 // an object entry without a key match
    | ExpectedValue               // an object entry, or a `value` node, without a value match
    | InvalidBool(text: string)   // the text is neither "true" nor "false"
    | InvalidNumber(text: string) // the float conversion rejected the text
    | UnhandledRule(rule: Rule)   // the source panics here instead of returning an error

  /** The standard library's text-to-bool conversion: exactly the two literals. */
  function ParseBool(text: string): Result<bool, Error> {
    if text == "true" then Success(true)
    else if text == "false" then Success(false)
    else Failure(InvalidBool(text))
  }

  /** Builds the value of node `n`. The text-to-f64 conversion is not modelled:
      `parseNumber` stands for it, `None` meaning the conversion failed.
      Any other rule label makes the source abort the process; the model
      returns `UnhandledRule` instead, which it reaches exactly when the source
      would abort, because evaluation is left to right and stops at the first
      failure. */
  function Build<F>(n: Node, parseNumber: string -> Option<F>): (r: Result<JsonValue<F>, Error>)
    ensures r.Failure? && r.error.UnhandledRule? ==> r.error.rule.OtherRule?
    decreases n, 1
  {
    match n.rule
    case CharsRule => Success(String(n.text))
    case NumberRule =>
      (match parseNumber(n.text)
       case Some(v) => Success(Number(v))
       case None => Failure(InvalidNumber(n.text)))
    case BoolRule =>
      var b :- ParseBool(n.text);
      Success(Bool(b))
    case NullRule => Success(Null)
    case ArrayRule =>
      var items :- BuildArray(n, 0, parseNumber);
      Success(Array(items))
    case ObjectRule =>
      var fields :- BuildObject(n, 0, map[], parseNumber);
      Success(Object(fields))
    case ValueRule =>
      if |n.children| == 0 then Failure(ExpectedValue)
      else Build(n.children[0], parseNumber)
    case OtherRule(_) => Failure(UnhandledRule(n.rule))
  }

  /** The elements built from children `i..` of array node `n`, in order,
      stopping at the first child that fails. */
  function BuildArray<F>(n: Node, i: nat, parseNumber: string -> Option<F>): (r: Result<seq<JsonValue<F>>, Error>)
    requires i <= |n.children|
    ensures r.Success? ==> |r.value| == |n.children| - i
    ensures r.Failure? && r.error.UnhandledRule? ==> r.error.rule.OtherRule?
    decreases n, 0, |n.children| - i
  {
    if i == |n.children| then Success([])
    else
      var head :- Build(n.children[i], parseNumber);
      var tail :- BuildArray(n, i + 1, parseNumber);
      Success([head] + tail)
  }

  /** One object entry: the text of its first child is the key, its second
      child is built as the value. */
  function BuildEntry<F>(e: Node, parseNumber: string -> Option<F>): (r: Result<(string, JsonValue<F>), Error>)
    ensures r.Failure? && r.error.UnhandledRule? ==> r.error.rule.OtherRule?
    decreases e, 0
  {
    if |e.children| == 0 then Failure(ExpectedKey)
    else
      var key := e.children[0].text;
      if |e.children| == 1 then Failure(ExpectedValue)
      else
        var value :- Build(e.children[1], parseNumber);
        Success((key, value))
  }

  /** Inserts the entries built from children `i..` of object node `n` into
      `acc`, in order, a later key replacing an earlier one; stops at the
      first entry that fails. */
  function BuildObject<F>(n: Node, i: nat, acc: map<string, JsonValue<F>>, parseNumber: string -> Option<F>)
    : (r: Result<map<string, JsonValue<F>>, Error>)
    requires i <= |n.children|
    ensures r.Success? ==> acc.Keys <= r.value.Keys
    ensures r.Failure? && r.error.UnhandledRule? ==> r.error.rule.OtherRule?
    decreases n, 0, |n.children| - i
  {
    if i == |n.children| then Success(acc)
    else
      var entry :- BuildEntry(n.children[i], parseNumber);
      BuildObject(n, i + 1, acc[entry.0 := entry.1], parseNumber)
  }
}
