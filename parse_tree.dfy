/** The tree the grammar matcher hands to the value builder. The matcher
    itself (a generated PEG parser) is not part of this model: its output is
    taken as given, with whatever shape it has. */
module ParseTree {

  /** Grammar rule labels. The seven the builder dispatches on have their own
      constructor; any other label the grammar may produce (the document root,
      a key/value pair, end of input, ...) is `OtherRule`, carrying its name. */
  datatype Rule =
    | NullRule
    | BoolRule
    | NumberRule
    | CharsRule
    | ArrayRule
    | ObjectRule
    | ValueRule
    | OtherRule(name: string)

  /** One matched rule occurrence: its label, the exact substring of the input
      it matched, and the matches of its sub-rules in input order. */
  datatype Node = Node(rule: Rule, text: string, children: seq<Node>)
}
