/** SOAP 1.1 envelopes (W3C SOAP 1.1 Note, section 4) as the Mellat helper
    writes them: plain string concatenation, every value embedded verbatim,
    with no XML escaping. */
module Soap {
  import opened Wrappers

  /** One piece of an operation body: an element `<tag>text</tag>`, an XML
      comment `<!--text-->`, or text copied as it is. */
  datatype Node = Element(tag: string, text: string) | Comment(text: string) | Raw(text: string)

  /** An envelope whose body holds the single operation element `int:operation`. */
  datatype Envelope = Envelope(operation: string, body: seq<Node>)

  const EnvelopeOpen: string :=
    "<soapenv:Envelope xmlns:soapenv=\"http://schemas.xmlsoap.org/soap/envelope/\" xmlns:int=\"http://interfaces.core.sw.bps.com/\">"
    + "<soapenv:Header/>"
    + "<soapenv:Body>"

  const EnvelopeClose: string := "</soapenv:Body>" + "</soapenv:Envelope>"

  /** The text of the element `<tag>text</tag>`. */
  function ElementXml(tag: string, text: string): string {
    "<" + tag + ">" + text + "</" + tag + ">"
  }

  function NodeXml(n: Node): string {
    match n
    case Element(tag, text) => ElementXml(tag, text)
    case Comment(text) => "<!--" + text + "-->"
    case Raw(text) => text
  }

  /** The pieces of text, one after another. */
  function Concat(parts: seq<string>): string
    decreases |parts|
  {
    if parts == [] then "" else parts[0] + Concat(parts[1..])
  }

  /** The rendering of each node, in order. */
  function Pieces(nodes: seq<Node>): (parts: seq<string>)
    ensures |parts| == |nodes|
    ensures forall i :: 0 <= i < |nodes| ==> parts[i] == NodeXml(nodes[i])
  {
    seq(|nodes|, i requires 0 <= i < |nodes| => NodeXml(nodes[i]))
  }

  function NodesXml(nodes: seq<Node>): string {
    Concat(Pieces(nodes))
  }

  /** The opening tag of the operation element. */
  function OperationTag(operation: string): string {
    "<int:" + operation + ">"
  }

  function ToXml(e: Envelope): string {
    EnvelopeOpen + OperationTag(e.operation) + NodesXml(e.body) + "</int:" + e.operation + ">" + EnvelopeClose
  }

  /** Position of the first element named `tag` in a body. */
  function ElementIndex(nodes: seq<Node>, tag: string): (r: Option<nat>)
    ensures r.Some? ==> r.value < |nodes| && nodes[r.value].Element? && nodes[r.value].tag == tag
    ensures r.Some? ==> forall k :: 0 <= k < r.value ==> !(nodes[k].Element? && nodes[k].tag == tag)
    ensures r.None? ==> forall k :: 0 <= k < |nodes| ==> !(nodes[k].Element? && nodes[k].tag == tag)
    decreases |nodes|
  {
    if nodes == [] then None
    else if nodes[0].Element? && nodes[0].tag == tag then Some(0)
    else match ElementIndex(nodes[1..], tag)
      case None => None
      case Some(i) => Some(i + 1)
  }

  /** The text of the first `Element` node with that tag in the body. */
  function ElementText(nodes: seq<Node>, tag: string): Option<string> {
    match ElementIndex(nodes, tag)
    case None => None
    case Some(i) => Some(nodes[i].text)
  }

  /** Elements after a stretch that holds none named `tag` are looked up past it. */
  lemma {:induction false} ElementTextSkip(a: seq<Node>, b: seq<Node>, tag: string)
    requires forall k :: 0 <= k < |a| ==> !(a[k].Element? && a[k].tag == tag)
    ensures ElementText(a + b, tag) == ElementText(b, tag)
    decreases |a|
  {
    if a == [] {
      assert a + b == b;
    } else {
      ElementTextSkip(a[1..], b, tag);
      assert (a + b)[0] == a[0];
      assert (a + b)[1..] == a[1..] + b;
    }
  }

  /** An element found in a prefix is found first in the whole body. */
  lemma {:induction false} ElementTextPrefix(a: seq<Node>, b: seq<Node>, tag: string)
    requires ElementText(a, tag).Some?
    ensures ElementText(a + b, tag) == ElementText(a, tag)
    decreases |a|
  {
    if !(a[0].Element? && a[0].tag == tag) {
      ElementTextPrefix(a[1..], b, tag);
      assert (a + b)[1..] == a[1..] + b;
    }
  }

  /** The first element named `tag` is the one at `k`. */
  lemma ElementTextAt(nodes: seq<Node>, tag: string, k: nat)
    requires k < |nodes| && nodes[k].Element? && nodes[k].tag == tag
    requires forall j :: 0 <= j < k ==> !(nodes[j].Element? && nodes[j].tag == tag)
    ensures ElementText(nodes, tag) == Some(nodes[k].text)
  {
    assert nodes == nodes[..k] + nodes[k..];
    ElementTextSkip(nodes[..k], nodes[k..], tag);
    assert nodes[k..][0] == nodes[k];
  }

  /** `t` occurs in `s` as a contiguous piece. */
  ghost predicate Contains(s: string, t: string) {
    exists i :: OccursAt(s, t, i)
  }

  predicate OccursAt(s: string, t: string, i: int) {
    0 <= i <= |s| - |t| && s[i..i + |t|] == t
  }

  lemma {:induction false} ConcatAppend(a: seq<string>, b: seq<string>)
    ensures Concat(a + b) == Concat(a) + Concat(b)
    decreases |a|
  {
    if a == [] {
      assert a + b == b;
    } else {
      ConcatAppend(a[1..], b);
      assert (a + b)[0] == a[0];
      assert (a + b)[1..] == a[1..] + b;
    }
  }

  /** Each piece stands in place in the concatenation: what precedes piece
      `k` is exactly the pieces before it. */
  lemma ConcatSplit(parts: seq<string>, k: nat)
    requires k <= |parts|
    ensures Concat(parts) == Concat(parts[..k]) + Concat(parts[k..])
  {
    assert parts == parts[..k] + parts[k..];
    ConcatAppend(parts[..k], parts[k..]);
  }

  lemma ConcatAt(parts: seq<string>, k: nat)
    requires k < |parts|
    ensures Concat(parts) == Concat(parts[..k]) + parts[k] + Concat(parts[k + 1..])
  {
    ConcatSplit(parts, k);
    var rest := parts[k..];
    assert rest[1..] == parts[k + 1..];
    assert Concat(rest) == parts[k] + Concat(parts[k + 1..]);
  }

  lemma ConcatContains(parts: seq<string>, k: nat)
    requires k < |parts|
    ensures Contains(Concat(parts), parts[k])
  {
    ConcatAt(parts, k);
    var before := Concat(parts[..k]);
    var after := Concat(parts[k + 1..]);
    assert (before + parts[k] + after)[|before|..|before| + |parts[k]|] == parts[k];
    assert OccursAt(Concat(parts), parts[k], |before|);
  }

  lemma ContainsWithin(pre: string, s: string, post: string, t: string)
    requires Contains(s, t)
    ensures Contains(pre + s + post, t)
  {
    var i :| OccursAt(s, t, i);
    assert (pre + s + post)[|pre| + i..|pre| + i + |t|] == s[i..i + |t|];
    assert OccursAt(pre + s + post, t, |pre| + i);
  }

  /** Every node of the body appears, as it renders, in the envelope's XML. */
  lemma NodeInXml(e: Envelope, k: nat)
    requires k < |e.body|
    ensures Contains(ToXml(e), NodeXml(e.body[k]))
  {
    var parts := Pieces(e.body);
    ConcatContains(parts, k);
    var pre := EnvelopeOpen + OperationTag(e.operation);
    var post := "</int:" + e.operation + ">" + EnvelopeClose;
    ContainsWithin(pre, NodesXml(e.body), post, parts[k]);
    assert ToXml(e) == pre + NodesXml(e.body) + post;
  }

  /** The first element with a given tag appears, tags and text, in the
      envelope's XML. */
  lemma ElementInXml(e: Envelope, tag: string)
    requires ElementText(e.body, tag).Some?
    ensures Contains(ToXml(e), ElementXml(tag, ElementText(e.body, tag).value))
  {
    NodeInXml(e, ElementIndex(e.body, tag).value);
  }

  /** The envelope's XML contains the operation's opening tag. */
  lemma OperationInXml(e: Envelope)
    ensures Contains(ToXml(e), OperationTag(e.operation))
  {
    var t := OperationTag(e.operation);
    var post := NodesXml(e.body) + "</int:" + e.operation + ">" + EnvelopeClose;
    assert t[0..|t|] == t;
    assert OccursAt(t, t, 0);
    ContainsWithin(EnvelopeOpen, t, post, t);
    assert ToXml(e) == EnvelopeOpen + t + post;
  }
}
