/** The unit tests of p-json/src/main.rs, replayed on hand-built parse trees.
    The grammar file is not part of this model, so each tree is the shape the
    test's input is assumed to match to. */
module JsonScenarios {
  import opened Wrappers
  import opened ParseTree
  import opened JsonBuilder

  function Leaf(rule: Rule, text: string): Node {
    Node(rule, text, [])
  }

  lemma NullScenario<F>(p: string -> Option<F>)
    ensures Build(Leaf(NullRule, "null"), p) == Success(Null)
  {
  }

  lemma BoolScenario<F>(p: string -> Option<F>)
    ensures Build(Leaf(BoolRule, "true"), p) == Success(Bool(true))
    ensures Build(Leaf(BoolRule, "false"), p) == Success(Bool(false))
    ensures Build(Leaf(BoolRule, "True"), p) == Failure(InvalidBool("True"))
  {
  }

  /** The escape sequences stay as written. */
  lemma StringScenario<F>(p: string -> Option<F>)
    ensures Build(Leaf(CharsRule, "hello \\\" world\\\""), p) == Success(String("hello \\\" world\\\""))
  {
  }

  lemma ArrayScenario<F>(p: string -> Option<F>)
    ensures
      var hello := Node(ValueRule, "\"hello\"", [Leaf(CharsRule, "hello")]);
      var world := Node(ValueRule, "\"world\"", [Leaf(CharsRule, "world")]);
      Build(Node(ArrayRule, "[\"hello\", \"world\"]", [hello, world]), p)
        == Success(Array([String("hello"), String("world")]))
  {
    var hello := Node(ValueRule, "\"hello\"", [Leaf(CharsRule, "hello")]);
    var world := Node(ValueRule, "\"world\"", [Leaf(CharsRule, "world")]);
    var a := Node(ArrayRule, "[\"hello\", \"world\"]", [hello, world]);
    assert Build(hello, p) == Success(String("hello"));
    assert Build(world, p) == Success(String("world"));
    assert BuildArray(a, 2, p) == Success([]);
    assert a.children[0] == hello && a.children[1] == world;
    var w: JsonValue<F> := String("world");
    var h: JsonValue<F> := String("hello");
    assert [w] + [] == [w];
    assert BuildArray(a, 1, p) == Success([String("world")]);
    assert [h] + [w] == [h, w];
    assert BuildArray(a, 0, p) == Success([String("hello"), String("world")]);
  }

  lemma ObjectScenario<F>(p: string -> Option<F>)
    ensures
      var pair := Node(OtherRule("pair"), "\"hello\": \"world\"",
                       [Leaf(CharsRule, "hello"), Node(ValueRule, "\"world\"", [Leaf(CharsRule, "world")])]);
      Build(Node(ObjectRule, "{\"hello\": \"world\"}", [pair]), p)
        == Success(Object(map["hello" := String("world")]))
  {
    var pair := Node(OtherRule("pair"), "\"hello\": \"world\"",
                     [Leaf(CharsRule, "hello"), Node(ValueRule, "\"world\"", [Leaf(CharsRule, "world")])]);
    var o := Node(ObjectRule, "{\"hello\": \"world\"}", [pair]);
    assert BuildEntry(pair, p) == Success(("hello", String("world")));
    var m: map<string, JsonValue<F>> := map[];
    assert BuildObject(o, 1, m["hello" := String("world")], p) == Success(map["hello" := String("world")]);
    assert BuildObject(o, 0, m, p) == Success(map["hello" := String("world")]);
  }

  /** Two entries with one key: the later one wins. */
  lemma DuplicateKeyScenario<F>(p: string -> Option<F>)
    ensures
      var first := Node(OtherRule("pair"), "\"k\": null", [Leaf(CharsRule, "k"), Leaf(NullRule, "null")]);
      var second := Node(OtherRule("pair"), "\"k\": true", [Leaf(CharsRule, "k"), Leaf(BoolRule, "true")]);
      Build(Node(ObjectRule, "{\"k\": null, \"k\": true}", [first, second]), p)
        == Success(Object(map["k" := Bool(true)]))
  {
    var first := Node(OtherRule("pair"), "\"k\": null", [Leaf(CharsRule, "k"), Leaf(NullRule, "null")]);
    var second := Node(OtherRule("pair"), "\"k\": true", [Leaf(CharsRule, "k"), Leaf(BoolRule, "true")]);
    var o := Node(ObjectRule, "{\"k\": null, \"k\": true}", [first, second]);
    assert BuildEntry(first, p) == Success(("k", Null));
    assert BuildEntry(second, p) == Success(("k", Bool(true)));
    var m: map<string, JsonValue<F>> := map[];
    assert m["k" := Null]["k" := Bool(true)] == map["k" := Bool(true)];
    assert BuildObject(o, 2, map["k" := Bool(true)], p) == Success(map["k" := Bool(true)]);
    assert BuildObject(o, 1, m["k" := Null], p) == Success(map["k" := Bool(true)]);
    assert BuildObject(o, 0, m, p) == Success(map["k" := Bool(true)]);
  }

  /** An entry without a value node, after a good one, fails the whole object. */
  lemma MissingValueScenario<F>(p: string -> Option<F>)
    ensures
      var good := Node(OtherRule("pair"), "\"a\": null", [Leaf(CharsRule, "a"), Leaf(NullRule, "null")]);
      var bad := Node(OtherRule("pair"), "\"b\"", [Leaf(CharsRule, "b")]);
      Build(Node(ObjectRule, "{\"a\": null, \"b\"}", [good, bad]), p) == Failure(ExpectedValue)
  {
    var good := Node(OtherRule("pair"), "\"a\": null", [Leaf(CharsRule, "a"), Leaf(NullRule, "null")]);
    var bad := Node(OtherRule("pair"), "\"b\"", [Leaf(CharsRule, "b")]);
    var o := Node(ObjectRule, "{\"a\": null, \"b\"}", [good, bad]);
    var m: map<string, JsonValue<F>> := map[];
    assert BuildEntry(good, p) == Success(("a", Null));
    assert BuildEntry(bad, p) == Failure(ExpectedValue);
    assert BuildObject(o, 1, m["a" := Null], p) == Failure(ExpectedValue);
  }
}
