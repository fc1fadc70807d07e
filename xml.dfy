/**
 * The decoded XML documents the SMS 2.0 session reads, abstracted as a map
 * from element paths to the nodes found there, in document order. Element
 * names are qualified by one of the three namespaces of the Wireless Village
 * Client-Server Protocol 1.2 that the session declares (message envelope,
 * transaction content, presence attributes), so a path never confuses two
 * elements of the same local name in different namespaces.
 */
module Xml {
  import opened Text

  /**
   * The three namespaces the session declares: "msg" for the message
   * envelope, "trans" for transaction content, "pres" for presence attributes.
   */
  datatype Namespace = Csp | Trc | Pa

  /** The URI each prefix is bound to. */
  function Uri(ns: Namespace): string {
    match ns
    case Csp => "http://www.openmobilealliance.org/DTD/WV-CSP1.2"
    case Trc => "http://www.openmobilealliance.org/DTD/WV-TRC1.2"
    case Pa => "http://www.openmobilealliance.org/DTD/WV-PA1.2"
  }

  /** A namespace-qualified element name. */
  datatype Name = Name(ns: Namespace, local: string)

  /** The "msg:", "trans:" and "pres:" prefixes of the session's queries. */
  function Msg(local: string): Name { Name(Csp, local) }
  function Trans(local: string): Name { Name(Trc, local) }
  function Pres(local: string): Name { Name(Pa, local) }

  type Path = seq<Name>

  /**
   * A child element as the session sees it: its name, its inner text, and the
   * subtree it roots, readable as a document of its own.
   */
  datatype Child = Child(name: string, text: string, fragment: Doc)

  /** An element found by a query: its inner text and its child elements in order. */
  datatype Node = Node(text: string, children: seq<Child>)

  /** A decoded document: for each path, the elements found there in document order. */
  datatype Doc = Doc(nodes: map<Path, seq<Node>>)

  /** SelectNodes: every element at the path, in document order. */
  function SelectNodes(doc: Doc, path: Path): seq<Node> {
    if path in doc.nodes then doc.nodes[path] else []
  }

  /** SelectSingleNode: the first element at the path, or None (null). */
  function SelectSingleNode(doc: Doc, path: Path): Option<Node> {
    var found := SelectNodes(doc, path);
    if |found| > 0 then Some(found[0]) else None
  }

  /** The inner text of the first element at the path, or None when there is none. */
  function InnerText(doc: Doc, path: Path): Option<string> {
    match SelectSingleNode(doc, path)
    case Some(n) => Some(n.text)
    case None => None
  }

  /** The inner texts of every element at the path, in document order. */
  function InnerTexts(doc: Doc, path: Path): (texts: seq<string>)
    ensures |texts| == |SelectNodes(doc, path)|
    ensures forall k :: 0 <= k < |texts| ==> texts[k] == SelectNodes(doc, path)[k].text
  {
    var found := SelectNodes(doc, path);
    seq(|found|, k requires 0 <= k < |found| => found[k].text)
  }

  /** msg:WV-CSP-Message / msg:Session / msg:Transaction / trans:TransactionContent */
  const ContentPath: Path :=
    [Msg("WV-CSP-Message"), Msg("Session"), Msg("Transaction"), Trans("TransactionContent")]

  /** A path below the TransactionContent of a response, in the transaction namespace. */
  function ContentChild(response: string, rest: Path): Path {
    ContentPath + [Trans(response)] + rest
  }
}
