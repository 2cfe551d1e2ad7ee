/** The DOM document the generators build, as an immutable tree. */
module Dom {
  import opened Php

  datatype Node = Element(name: string, children: seq<Node>) | Text(content: string)

  /** `createElement(name, value)`: an element holding one text node with `value`. */
  function Leaf(name: string, value: string): Node {
    Element(name, [Text(value)])
  }

  /**
   * Every text node under `n` is free of raw markup characters, except
   * inside elements named `exempt`.
   */
  predicate EscapedOutside(n: Node, exempt: string) {
    match n
    case Text(s) => NoMarkup(s)
    case Element(name, cs) => name == exempt || forall i :: 0 <= i < |cs| ==> EscapedOutside(cs[i], exempt)
  }

  /** Appending the next element of s to its first k elements gives its first k + 1. */
  lemma AppendNext(prefix: seq<Node>, s: seq<Node>, k: nat, e: Node)
    requires k < |s| && prefix == s[..k] && e == s[k]
    ensures prefix + [e] == s[..k + 1]
  {
  }
}
