// What the entries of a map file stand for, from the text of the file to the call that both readers make.
module MapFileMeaning {
  import opened Common
  import opened Numbers
  import opened Browse
  import opened MapFile
  import opened CatalogueNames

  // A digit stands first, after white space and a sign.
  predicate LooksNumeric(t: string) {
    var u := Unsigned(t); u != [] && IsDigit(u[0])
  }

  lemma InvalidExactly(t: string)
    ensures Stoul(t).Invalid? <==> !LooksNumeric(t)
  {
  }

  // The line is neither a comment nor a tag.
  predicate IsRead(e: Entry, l: Layout)
    requires GoodEntry(e)
  {
    l.lead != [] || !LooksSkipped(e)
  }

  function Element(e: Entry, range: Option<string>): XmlNode { XmlElement("pv", e.node, Some(e.ns), e.name, range) }

  function XmlCalls(root: string, xs: seq<XmlNode>): seq<EntryCall> { CallsFor(ElementsFor(root, xs)) }

  // Both readers make one call, for this node, under the name of the entry; only elements can have a range.
  ghost predicate BothCall(root: string, e: Entry, range: Option<string>, l: Layout, n: NodeId) {
    && XmlCalls(root, [Element(e, range)]) == [EntryCall(n, e.name, if range.Some? then range.value else "")]
    && CallsForLines(root, [LineOf(e, l)]) == [EntryCall(n, e.name, "")]
  }

  ghost predicate BothReject(root: string, e: Entry, range: Option<string>, l: Layout) {
    XmlCalls(root, [Element(e, range)]) == [] && CallsForLines(root, [LineOf(e, l)]) == []
  }

  lemma OneElement(root: string, x: XmlNode)
    ensures XmlCalls(root, [x]) == if ElementFor(root, x) == [] then [] else [CallFor(ElementFor(root, x)[0])]
  {
    hide NodeFor;
    var none: seq<XmlNode> := [];
    assert [x][..0] == none;
    var es := ElementFor(root, x);
    assert ElementsFor(root, [x]) == es;
    if es != [] {
      assert |es| == 1 && CallsFor(es[..0]) == [];
    }
  }

  lemma OneLine(root: string, e: Entry, l: Layout)
    requires GoodEntry(e) && GoodLayout(l) && IsRead(e, l)
    ensures CallsForLines(root, [LineOf(e, l)]) == CallForTokens(root, TokensOf(e))
  {
    hide NodeFor, Tokens, CallForTokens;
    var line := LineOf(e, l);
    var none: seq<string> := [];
    assert [line][..0] == none;
    LineTokens(e, l);
    var first := if e.name.Some? then e.name.value else e.node;
    assert WordsOf(e, l)[0] == first[0];
    assert line[0] == if l.lead != [] then l.lead[0] else first[0];
  }

  lemma NodeDecides(root: string, e: Entry, range: Option<string>, l: Layout)
    requires GoodEntry(e) && GoodLayout(l) && IsRead(e, l)
    ensures match NodeFor(root, e.node, e.ns)
            case Some(n) => BothCall(root, e, range, l, n)
            case None => BothReject(root, e, range, l)
  {
    hide NodeFor, XmlCalls, CallsForLines, LineOf;
    OneElement(root, Element(e, range));
    OneLine(root, e, l);
  }

  lemma PrintedParts(n: nat)
    ensures Stoul(ToText(n)) == if n < TWO_64 then Parsed(n) else OutOfRange
  {
    PrintParse(n);
  }

  // A text that is no number is the name of a node below the root. For a root of the documented form the register of an
  // entry without a name is called as the entry says.
  lemma TextEntry(root: string, e: Entry, range: Option<string>, l: Layout, ns: nat)
    requires GoodEntry(e) && GoodLayout(l) && IsRead(e, l)
    requires !LooksNumeric(e.node) && e.ns == ToText(ns) && ns < TWO_16
    ensures BothCall(root, e, range, l, StringId(ns, root + e.node))
    ensures root != [] && root[0] != '/' && !EndsInDir(root) && |root| + |e.node| < TWO_63 ==>
              NameOf(root, StringId(ns, root + e.node)) == Some(e.node)
  {
    hide BothCall, BothReject, Stoul, NameOf, ToText;
    InvalidExactly(e.node);
    PrintedParts(ns);
    NodeDecides(root, e, range, l);
    if root != [] && root[0] != '/' && !EndsInDir(root) && |root| + |e.node| < TWO_63 {
      PrefixThenStrip(root, e.node, ns);
    }
  }

  // A printed number is a numeric node, cut to 32 bits, whatever the root.
  lemma NumberEntry(root: string, e: Entry, range: Option<string>, l: Layout, id: nat, ns: nat)
    requires GoodEntry(e) && GoodLayout(l) && IsRead(e, l)
    requires e.node == ToText(id) && id < TWO_64 && e.ns == ToText(ns) && ns < TWO_64
    ensures BothCall(root, e, range, l, NumericId(ns % TWO_16, id % TWO_32))
  {
    hide BothCall, BothReject, Stoul, ToText;
    PrintedParts(id);
    PrintedParts(ns);
    NodeDecides(root, e, range, l);
  }

  // A namespace that is no number, and numbers that do not fit into 64 bits, reject the entry.
  lemma RejectedEntry(root: string, e: Entry, range: Option<string>, l: Layout, n: nat)
    requires GoodEntry(e) && GoodLayout(l) && IsRead(e, l)
    requires !LooksNumeric(e.ns) || (n >= TWO_64 && (e.ns == ToText(n) || e.node == ToText(n)))
    ensures BothReject(root, e, range, l)
  {
    hide BothCall, BothReject, Stoul, ToText;
    InvalidExactly(e.ns);
    PrintedParts(n);
    NodeDecides(root, e, range, l);
  }

  // Other elements, elements without a namespace, and nodes that are no elements make no call; an empty name is none.
  lemma OtherElements(root: string, x: XmlNode)
    ensures x.XmlOther? || x.tag != "pv" || x.ns.None? ==> XmlCalls(root, [x]) == []
    ensures x.XmlElement? && x.name == Some("") ==> XmlCalls(root, [x]) == XmlCalls(root, [x.(name := None)])
  {
    hide XmlCalls;
    OneElement(root, x);
    assert Stoul("").Invalid?;
    hide Stoul;
    if x.XmlElement? {
      OneElement(root, x.(name := None));
    }
  }

  // Comments, tags, empty lines and lines with another number of words than two or three make no call.
  lemma OtherLines(root: string, line: string)
    requires line == [] || line[0] == '#' || line[0] == '<' || |Tokens(line)| !in {2, 3}
    ensures CallsForLines(root, [line]) == []
  {
    hide NodeFor, Tokens;
    var none: seq<string> := [];
    assert [line][..0] == none;
  }

  lemma {:induction false} LinesJoin(root: string, a: seq<string>, b: seq<string>)
    ensures CallsForLines(root, a + b) == CallsForLines(root, a) + CallsForLines(root, b)
  {
    hide CallForLine;
    if b == [] {
      assert a + b == a;
    } else {
      assert (a + b)[..|a + b| - 1] == a + b[..|b| - 1];
      LinesJoin(root, a, b[..|b| - 1]);
    }
  }

  lemma {:induction false} ElementsJoin(root: string, a: seq<XmlNode>, b: seq<XmlNode>)
    ensures ElementsFor(root, a + b) == ElementsFor(root, a) + ElementsFor(root, b)
  {
    hide ElementFor;
    if b == [] {
      assert a + b == a;
    } else {
      assert (a + b)[..|a + b| - 1] == a + b[..|b| - 1];
      ElementsJoin(root, a, b[..|b| - 1]);
    }
  }

  // Both readers take their files from front to back: what comes first is called first.
  lemma InFileOrder(root: string, xs: seq<XmlNode>, ys: seq<XmlNode>, lines: seq<string>, more: seq<string>)
    ensures XmlCalls(root, xs + ys) == XmlCalls(root, xs) + XmlCalls(root, ys)
    ensures CallsForLines(root, lines + more) == CallsForLines(root, lines) + CallsForLines(root, more)
  {
    hide CallsFor, ElementsFor, CallsForLines;
    ElementsJoin(root, xs, ys);
    CallsForJoin(ElementsFor(root, xs), ElementsFor(root, ys));
    LinesJoin(root, lines, more);
  }
}
