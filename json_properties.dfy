/** What the builder promises, stated against the parse tree it consumes. */
module JsonProperties {
  import opened Wrappers
  import opened ParseTree
  import opened JsonBuilder

  // ----- Leaves and the `value` wrapper -------------------------------------

  /** A `null` node is `Null`, whatever its text or children. */
  lemma BuildNull<F>(n: Node, p: string -> Option<F>)
    requires n.rule == NullRule
    ensures Build(n, p) == Success(Null)
  {
  }

  /** A `bool` node succeeds exactly on the two literals, with the matching value. */
  lemma BuildBool<F>(n: Node, p: string -> Option<F>)
    requires n.rule == BoolRule
    ensures Build(n, p).Success? <==> n.text == "true" || n.text == "false"
    ensures Build(n, p).Success? ==> Build(n, p).value == Bool(n.text == "true")
    ensures Build(n, p).Failure? ==> Build(n, p).error == InvalidBool(n.text)
  {
  }

  /** A `chars` node never fails and keeps its text verbatim, escapes included. */
  lemma BuildChars<F>(n: Node, p: string -> Option<F>)
    requires n.rule == CharsRule
    ensures Build(n, p) == Success(String(n.text))
  {
  }

  /** A `number` node is the conversion of its text, or a conversion error. */
  lemma BuildNumber<F>(n: Node, p: string -> Option<F>)
    requires n.rule == NumberRule
    ensures Build(n, p).Success? <==> p(n.text).Some?
    ensures Build(n, p).Success? ==> Build(n, p).value == Number(p(n.text).value)
    ensures Build(n, p).Failure? ==> Build(n, p).error == InvalidNumber(n.text)
  {
  }

  /** A `value` node is exactly its first child; without children it fails. */
  lemma BuildValueWrapper<F>(n: Node, p: string -> Option<F>)
    requires n.rule == ValueRule
    ensures |n.children| == 0 ==> Build(n, p) == Failure(ExpectedValue)
    ensures |n.children| > 0 ==> Build(n, p) == Build(n.children[0], p)
  {
  }

  // ----- Arrays -------------------------------------------------------------

  /** `j` is the first child from index `from` on whose build fails. */
  ghost predicate FirstFailingChild<F>(n: Node, from: nat, j: int, p: string -> Option<F>) {
    && from <= j < |n.children|
    && Build(n.children[j], p).Failure?
    && forall k | from <= k < j :: Build(n.children[k], p).Success?
  }

  lemma {:induction false} ArrayFrom<F>(n: Node, i: nat, p: string -> Option<F>)
    requires i <= |n.children|
    ensures BuildArray(n, i, p).Success? <==> forall j | i <= j < |n.children| :: Build(n.children[j], p).Success?
    ensures BuildArray(n, i, p).Success? ==>
      forall j | i <= j < |n.children| :: BuildArray(n, i, p).value[j - i] == Build(n.children[j], p).value
    ensures BuildArray(n, i, p).Failure? ==>
      exists j :: FirstFailingChild(n, i, j, p) && BuildArray(n, i, p).error == Build(n.children[j], p).error
    decreases |n.children| - i
  {
    if i < |n.children| {
      ArrayFrom(n, i + 1, p);
      if Build(n.children[i], p).Failure? {
        assert FirstFailingChild(n, i, i, p);
      } else if BuildArray(n, i + 1, p).Failure? {
        var j :| FirstFailingChild(n, i + 1, j, p) && BuildArray(n, i + 1, p).error == Build(n.children[j], p).error;
        assert FirstFailingChild(n, i, j, p);
      }
    }
  }

  /** A successful array has one element per child, element `j` being the
      build of child `j`; it succeeds exactly when every child does. */
  lemma ArrayElements<F>(n: Node, p: string -> Option<F>)
    requires n.rule == ArrayRule
    ensures Build(n, p).Success? <==> forall j | 0 <= j < |n.children| :: Build(n.children[j], p).Success?
    ensures Build(n, p).Success? ==>
      && Build(n, p).value.Array?
      && |Build(n, p).value.items| == |n.children|
      && forall j | 0 <= j < |n.children| :: Build(n, p).value.items[j] == Build(n.children[j], p).value
  {
    ArrayFrom(n, 0, p);
  }

  /** A failing array fails with the error of its first failing child. */
  lemma ArrayFirstError<F>(n: Node, p: string -> Option<F>)
    requires n.rule == ArrayRule
    ensures Build(n, p).Failure? ==>
      exists j :: FirstFailingChild(n, 0, j, p) && Build(n, p).error == Build(n.children[j], p).error
  {
    ArrayFrom(n, 0, p);
  }

  // ----- Objects ------------------------------------------------------------

  /** What goes wrong with a single entry. */
  lemma EntryErrors<F>(e: Node, p: string -> Option<F>)
    ensures |e.children| == 0 ==> BuildEntry(e, p) == Failure(ExpectedKey)
    ensures |e.children| == 1 ==> BuildEntry(e, p) == Failure(ExpectedValue)
    ensures |e.children| >= 2 ==>
      && (BuildEntry(e, p).Success? <==> Build(e.children[1], p).Success?)
      && (BuildEntry(e, p).Success? ==> BuildEntry(e, p).value == (e.children[0].text, Build(e.children[1], p).value))
      && (BuildEntry(e, p).Failure? ==> BuildEntry(e, p).error == Build(e.children[1], p).error)
  {
  }

  /** `j` is the first entry from index `from` on that fails. */
  ghost predicate FirstFailingEntry<F>(n: Node, from: nat, j: int, p: string -> Option<F>) {
    && from <= j < |n.children|
    && BuildEntry(n.children[j], p).Failure?
    && forall k | from <= k < j :: BuildEntry(n.children[k], p).Success?
  }

  /** Entry `j` of `cs` has key `k`. */
  ghost predicate HasKeyAt(cs: seq<Node>, j: int, k: string) {
    0 <= j < |cs| && |cs[j].children| > 0 && cs[j].children[0].text == k
  }

  /** Entry `j` is the last entry of `cs` with key `k`. */
  ghost predicate LastEntryFor(cs: seq<Node>, j: int, k: string) {
    HasKeyAt(cs, j, k) && forall i | j < i < |cs| :: !HasKeyAt(cs, i, k)
  }

  /** The keys of entries `from..` of `cs`. */
  ghost function KeysFrom(cs: seq<Node>, from: nat): set<string> {
    set j | from <= j < |cs| && |cs[j].children| > 0 :: cs[j].children[0].text
  }

  lemma {:induction false} ObjectFailureFrom<F>(n: Node, i: nat, acc: map<string, JsonValue<F>>, p: string -> Option<F>)
    requires i <= |n.children|
    ensures BuildObject(n, i, acc, p).Failure? <==> exists j | i <= j < |n.children| :: BuildEntry(n.children[j], p).Failure?
    ensures BuildObject(n, i, acc, p).Failure? ==>
      exists j :: FirstFailingEntry(n, i, j, p) && BuildObject(n, i, acc, p).error == BuildEntry(n.children[j], p).error
    decreases |n.children| - i
  {
    if i < |n.children| {
      var e := BuildEntry(n.children[i], p);
      if e.Failure? {
        assert FirstFailingEntry(n, i, i, p);
      } else {
        var acc' := acc[e.value.0 := e.value.1];
        ObjectFailureFrom(n, i + 1, acc', p);
        if BuildObject(n, i + 1, acc', p).Failure? {
          var j :| FirstFailingEntry(n, i + 1, j, p) && BuildObject(n, i + 1, acc', p).error == BuildEntry(n.children[j], p).error;
          assert FirstFailingEntry(n, i, j, p);
        }
      }
    }
  }

  lemma {:induction false} ObjectSuccessFrom<F>(n: Node, i: nat, acc: map<string, JsonValue<F>>, p: string -> Option<F>)
    requires i <= |n.children|
    requires BuildObject(n, i, acc, p).Success?
    ensures forall j | i <= j < |n.children| ::
      |n.children[j].children| >= 2 && Build(n.children[j].children[1], p).Success?
    ensures BuildObject(n, i, acc, p).value.Keys == acc.Keys + KeysFrom(n.children, i)
    ensures forall k | k in acc && k !in KeysFrom(n.children, i) :: BuildObject(n, i, acc, p).value[k] == acc[k]
    ensures forall j, k | i <= j && LastEntryFor(n.children, j, k) ::
      BuildObject(n, i, acc, p).value[k] == Build(n.children[j].children[1], p).value
    decreases |n.children| - i
  {
    var cs := n.children;
    if i == |cs| {
      assert KeysFrom(cs, i) == {};
    } else {
      var e := BuildEntry(cs[i], p);
      var k0, v0 := e.value.0, e.value.1;
      var acc' := acc[k0 := v0];
      assert BuildObject(n, i, acc, p) == BuildObject(n, i + 1, acc', p);
      ObjectSuccessFrom(n, i + 1, acc', p);
      assert |cs[i].children| >= 2 && Build(cs[i].children[1], p).Success?;
      assert k0 == cs[i].children[0].text && v0 == Build(cs[i].children[1], p).value;
      assert KeysFrom(cs, i) == {k0} + KeysFrom(cs, i + 1) by {
        assert HasKeyAt(cs, i, k0);
      }
      var m := BuildObject(n, i, acc, p).value;
      forall j, k | i <= j && LastEntryFor(cs, j, k)
        ensures m[k] == Build(cs[j].children[1], p).value
      {
        if j == i {
          assert k == k0;
          if k0 in KeysFrom(cs, i + 1) {
            var j' :| i + 1 <= j' < |cs| && |cs[j'].children| > 0 && cs[j'].children[0].text == k0;
            assert HasKeyAt(cs, j', k);
            assert false;
          }
        }
      }
    }
  }

  /** A successful object: every entry has a key and a value, the key set is
      the set of entry keys, and each key holds the value of the LAST entry
      with that key. */
  lemma ObjectFields<F>(n: Node, p: string -> Option<F>)
    requires n.rule == ObjectRule
    requires Build(n, p).Success?
    ensures forall j | 0 <= j < |n.children| ::
      |n.children[j].children| >= 2 && Build(n.children[j].children[1], p).Success?
    ensures Build(n, p).value.Object?
    ensures Build(n, p).value.fields.Keys == KeysFrom(n.children, 0)
    ensures forall j, k | LastEntryFor(n.children, j, k) ::
      Build(n, p).value.fields[k] == Build(n.children[j].children[1], p).value
  {
    ObjectSuccessFrom(n, 0, map[], p);
  }

  /** An object fails exactly when one of its entries does, with the error of
      the first failing entry. */
  lemma ObjectFirstError<F>(n: Node, p: string -> Option<F>)
    requires n.rule == ObjectRule
    ensures Build(n, p).Failure? <==> exists j | 0 <= j < |n.children| :: BuildEntry(n.children[j], p).Failure?
    ensures Build(n, p).Failure? ==>
      exists j :: FirstFailingEntry(n, 0, j, p) && Build(n, p).error == BuildEntry(n.children[j], p).error
  {
    ObjectFailureFrom(n, 0, map[], p);
  }

  // ----- Whole trees --------------------------------------------------------

  /** When a tree builds, stated without the build: every node the builder
      visits has a handled label, leaves hold convertible text, and every
      entry and `value` node has the children it needs. */
  ghost predicate Buildable<F>(n: Node, p: string -> Option<F>)
    decreases n
  {
    match n.rule
    case NullRule => true
    case BoolRule => n.text == "true" || n.text == "false"
    case NumberRule => p(n.text).Some?
    case CharsRule => true
    case ArrayRule => forall j | 0 <= j < |n.children| :: Buildable(n.children[j], p)
    case ObjectRule =>
      forall j | 0 <= j < |n.children| ::
        |n.children[j].children| >= 2 && Buildable(n.children[j].children[1], p)
    case ValueRule => |n.children| > 0 && Buildable(n.children[0], p)
    case OtherRule(_) => false
  }

  lemma {:induction false} BuildSucceedsIff<F>(n: Node, p: string -> Option<F>)
    ensures Build(n, p).Success? <==> Buildable(n, p)
    decreases n
  {
    match n.rule
    case ArrayRule =>
      ArrayElements(n, p);
      forall j | 0 <= j < |n.children|
        ensures Build(n.children[j], p).Success? <==> Buildable(n.children[j], p)
      {
        BuildSucceedsIff(n.children[j], p);
      }
    case ObjectRule =>
      ObjectFirstError(n, p);
      forall j | 0 <= j < |n.children|
        ensures BuildEntry(n.children[j], p).Success? <==>
          |n.children[j].children| >= 2 && Buildable(n.children[j].children[1], p)
      {
        EntryErrors(n.children[j], p);
        if |n.children[j].children| >= 2 {
          BuildSucceedsIff(n.children[j].children[1], p);
        }
      }
    case ValueRule =>
      if |n.children| > 0 {
        BuildSucceedsIff(n.children[0], p);
      }
    case _ =>
  }

  /** Every node the builder may visit carries one of the seven handled labels. */
  ghost predicate Handled(n: Node)
    decreases n
  {
    match n.rule
    case ArrayRule => forall j | 0 <= j < |n.children| :: Handled(n.children[j])
    case ObjectRule =>
      forall j | 0 <= j < |n.children| && |n.children[j].children| >= 2 :: Handled(n.children[j].children[1])
    case ValueRule => |n.children| > 0 ==> Handled(n.children[0])
    case OtherRule(_) => false
    case _ => true
  }

  /** On a tree whose visited nodes all carry handled labels the source never
      reaches its panic. */
  lemma {:induction false} NoPanic<F>(n: Node, p: string -> Option<F>)
    requires Handled(n)
    ensures !(Build(n, p).Failure? && Build(n, p).error.UnhandledRule?)
    decreases n
  {
    match n.rule
    case ArrayRule =>
      ArrayFirstError(n, p);
      if Build(n, p).Failure? {
        var j :| FirstFailingChild(n, 0, j, p) && Build(n, p).error == Build(n.children[j], p).error;
        NoPanic(n.children[j], p);
      }
    case ObjectRule =>
      ObjectFirstError(n, p);
      if Build(n, p).Failure? {
        var j :| FirstFailingEntry(n, 0, j, p) && Build(n, p).error == BuildEntry(n.children[j], p).error;
        EntryErrors(n.children[j], p);
        if |n.children[j].children| >= 2 {
          NoPanic(n.children[j].children[1], p);
        }
      }
    case ValueRule =>
      if |n.children| > 0 {
        NoPanic(n.children[0], p);
      }
    case _ =>
  }
}
