// The two readers of a map file: elements of an XML document, and lines of the older text format.
//
// Both turn an entry into a call of addCatalogueEntry. XML parsing itself is not modelled: a document is the list of
// children of its root.
module MapFile {
  import opened Common
  import opened Numbers
  import opened Browse

  // A child of the root element: an element with its attributes and text, or something else.
  datatype XmlNode =
    | XmlElement(tag: string, text: string, ns: Option<string>, name: Option<string>, range: Option<string>)
    | XmlOther

  datatype MapElement = MapElement(node: NodeId, range: string, name: string)

  // A call of addCatalogueEntry.
  datatype EntryCall = EntryCall(node: NodeId, name: Option<string>, range: string)

  // ----- one entry -----

  // The node an entry stands for: numeric if the node text starts like a number, else a string below the root. None
  // if it is rejected.
  function NodeFor(root: string, node: string, ns: string): Option<NodeId> {
    match (Stoul(node), Stoul(ns))
    case (Parsed(id), Parsed(n)) => Some(NumericId(n % TWO_16, id % TWO_32))
    case (Invalid, Parsed(n)) => Some(StringId(n % TWO_16, root + node))
    case _ => None
  }

  function OrEmpty(o: Option<string>): string { if o.Some? then o.value else "" }

  function ElementFor(root: string, x: XmlNode): seq<MapElement> {
    if x.XmlElement? && x.tag == "pv" then
      match NodeFor(root, x.text, OrEmpty(x.ns))
      case Some(n) => [MapElement(n, OrEmpty(x.range), OrEmpty(x.name))]
      case None => []
    else []
  }

  function ElementsFor(root: string, xs: seq<XmlNode>): seq<MapElement> {
    if xs == [] then [] else ElementsFor(root, xs[..|xs| - 1]) + ElementFor(root, xs[|xs| - 1])
  }

  function CallFor(e: MapElement): EntryCall {
    EntryCall(e.node, if e.name == "" then None else Some(e.name), e.range)
  }

  function CallsFor(es: seq<MapElement>): seq<EntryCall> {
    if es == [] then [] else CallsFor(es[..|es| - 1]) + [CallFor(es[|es| - 1])]
  }

  // ----- the older format -----

  predicate IsSeparator(c: char) { c == '\t' || c == ' ' }

  // boost::tokenizer with tab and blank as separators, dropping empty tokens.
  function FirstToken(s: string): (t: string)
    ensures |t| <= |s| && t == s[..|t|]
    ensures forall i :: 0 <= i < |t| ==> !IsSeparator(t[i])
    ensures |t| < |s| ==> IsSeparator(s[|t|])
  {
    if s == [] || IsSeparator(s[0]) then [] else [s[0]] + FirstToken(s[1..])
  }

  function Tokens(s: string): seq<string>
    decreases |s|
  {
    if s == [] then []
    else if IsSeparator(s[0]) then Tokens(s[1..])
    else [FirstToken(s)] + Tokens(s[|FirstToken(s)|..])
  }

  predicate Skipped(line: string) { line == [] || line[0] == '#' || line[0] == '<' }

  function CallForTokens(root: string, tokens: seq<string>): seq<EntryCall> {
    if |tokens| != 2 && |tokens| != 3 then []
    else
      var k := |tokens| - 2;
      match NodeFor(root, tokens[k], tokens[k + 1])
      case Some(n) => [EntryCall(n, if k == 1 then Some(tokens[0]) else None, "")]
      case None => []
  }

  function CallForLine(root: string, line: string): seq<EntryCall> {
    if Skipped(line) then [] else CallForTokens(root, Tokens(line))
  }

  function CallsForLines(root: string, lines: seq<string>): seq<EntryCall> {
    if lines == [] then [] else CallsForLines(root, lines[..|lines| - 1]) + CallForLine(root, lines[|lines| - 1])
  }

  // ----- the same entries in both formats -----

  datatype Entry = Entry(node: string, ns: string, name: Option<string>)

  predicate IsToken(t: string) { t != [] && forall i :: 0 <= i < |t| ==> !IsSpace(t[i]) }

  predicate GoodEntry(e: Entry) {
    IsToken(e.node) && IsToken(e.ns) && (e.name.Some? ==> IsToken(e.name.value))
  }

  // The gap in front of the tokens of a line, the gaps between them, and what follows them.
  datatype Layout = Layout(lead: string, first: string, second: string, last: string)

  predicate IsGap(g: string) { forall i :: 0 <= i < |g| ==> IsSeparator(g[i]) }

  predicate GoodLayout(l: Layout) {
    l.first != [] && l.second != [] && IsGap(l.lead) && IsGap(l.first) && IsGap(l.second) && IsGap(l.last)
  }

  function XmlOf(e: Entry): XmlNode { XmlElement("pv", e.node, Some(e.ns), e.name, None) }

  function LineOf(e: Entry, l: Layout): string { l.lead + WordsOf(e, l) }

  function WordsOf(e: Entry, l: Layout): string {
    (if e.name.Some? then e.name.value + l.first else []) + (e.node + l.second + (e.ns + l.last))
  }

  function TokensOf(e: Entry): seq<string> {
    if e.name.Some? then [e.name.value, e.node, e.ns] else [e.node, e.ns]
  }

  // The first word of an entry looks like a comment or a tag.
  predicate LooksSkipped(e: Entry)
    requires GoodEntry(e)
  {
    var first := if e.name.Some? then e.name.value[0] else e.node[0];
    first == '#' || first == '<'
  }

  lemma {:induction false} GapThen(g: string, rest: string)
    requires IsGap(g)
    ensures Tokens(g + rest) == Tokens(rest)
  {
    if g == [] {
      assert g + rest == rest;
    } else {
      assert (g + rest)[1..] == g[1..] + rest;
      GapThen(g[1..], rest);
    }
  }

  lemma {:induction false} FirstTokenOf(t: string, rest: string)
    requires IsToken(t) && (rest == [] || IsSeparator(rest[0]))
    ensures FirstToken(t + rest) == t
  {
    assert (t + rest)[1..] == t[1..] + rest;
    if |t| > 1 {
      FirstTokenOf(t[1..], rest);
    } else {
      assert t[1..] + rest == rest;
      assert t == [t[0]];
    }
  }

  lemma TokenThen(t: string, g: string, rest: string)
    requires IsToken(t) && IsGap(g) && (g == [] ==> rest == [])
    ensures Tokens(t + g + rest) == [t] + Tokens(rest)
  {
    assert t + g + rest == t + (g + rest);
    FirstTokenOf(t, g + rest);
    assert (t + (g + rest))[|t|..] == g + rest;
    GapThen(g, rest);
  }

  lemma NoTokens()
    ensures Tokens([]) == []
  {
  }

  lemma LineTokens(e: Entry, l: Layout)
    requires GoodEntry(e) && GoodLayout(l)
    ensures Tokens(LineOf(e, l)) == TokensOf(e)
  {
    hide Tokens;
    var end := e.ns + l.last;
    assert Tokens([]) == [] by { NoTokens(); }
    assert end == e.ns + l.last + [];
    TokenThen(e.ns, l.last, []);
    TokenThen(e.node, l.second, end);
    if e.name.Some? {
      TokenThen(e.name.value, l.first, e.node + l.second + end);
    } else {
      assert WordsOf(e, l) == e.node + l.second + end;
    }
    GapThen(l.lead, WordsOf(e, l));
  }

  // What both readers make of one entry.
  function Meant(root: string, e: Entry): seq<EntryCall> {
    match NodeFor(root, e.node, e.ns)
    case Some(n) => [EntryCall(n, e.name, "")]
    case None => []
  }

  lemma XmlMeans(root: string, e: Entry)
    requires GoodEntry(e)
    ensures CallsFor(ElementFor(root, XmlOf(e))) == Meant(root, e)
  {
  }

  // The line of the entry means what its element means.
  predicate Fits(root: string, e: Entry, l: Layout)
    requires GoodEntry(e)
  {
    l.lead != [] || !LooksSkipped(e) || NodeFor(root, e.node, e.ns).None?
  }

  // The line of an entry means the same exactly when the entry is rejected anyway, its first word does not start with
  // '#' or '<', or something stands in front of it: only the first character of the line is looked at.
  lemma LineMeansExactly(root: string, e: Entry, l: Layout)
    requires GoodEntry(e) && GoodLayout(l)
    ensures CallForLine(root, LineOf(e, l)) == Meant(root, e)
       <==> Fits(root, e, l)
  {
    hide NodeFor, Tokens;
    LineTokens(e, l);
    var first := if e.name.Some? then e.name.value else e.node;
    assert WordsOf(e, l)[0] == first[0];
    assert LineOf(e, l)[0] == if l.lead != [] then l.lead[0] else first[0];
  }

  lemma {:induction false} CallsForJoin(a: seq<MapElement>, b: seq<MapElement>)
    ensures CallsFor(a + b) == CallsFor(a) + CallsFor(b)
  {
    if b == [] {
      assert a + b == a;
    } else {
      assert (a + b)[..|a + b| - 1] == a + b[..|b| - 1];
      CallsForJoin(a, b[..|b| - 1]);
    }
  }

  function XmlAll(es: seq<Entry>): seq<XmlNode> {
    seq(|es|, i requires 0 <= i < |es| => XmlOf(es[i]))
  }

  function LinesOf(es: seq<Entry>, ls: seq<Layout>): seq<string>
    requires |ls| == |es|
  {
    seq(|es|, i requires 0 <= i < |es| => LineOf(es[i], ls[i]))
  }

  // A line that does not fit makes no call, while its element makes one.
  lemma LineCounts(root: string, e: Entry, l: Layout)
    requires GoodEntry(e) && GoodLayout(l)
    ensures |CallForLine(root, LineOf(e, l))| == if Fits(root, e, l) then |Meant(root, e)| else |Meant(root, e)| - 1
  {
    hide Tokens;
    LineMeansExactly(root, e, l);
    LineTokens(e, l);
  }

  // One entry more.
  lemma ReadersNext(root: string, es: seq<Entry>, ls: seq<Layout>)
    requires |ls| == |es| && es != []
    requires forall i :: 0 <= i < |es| ==> GoodEntry(es[i]) && GoodLayout(ls[i])
    ensures var n := |es| - 1;
            && CallsFor(ElementsFor(root, XmlAll(es))) == CallsFor(ElementsFor(root, XmlAll(es[..n]))) + Meant(root, es[n])
            && CallsForLines(root, LinesOf(es, ls))
               == CallsForLines(root, LinesOf(es[..n], ls[..n])) + CallForLine(root, LineOf(es[n], ls[n]))
  {
    hide NodeFor, ElementFor, CallForLine, Meant;
    var n := |es| - 1;
    assert XmlAll(es)[..n] == XmlAll(es[..n]);
    assert LinesOf(es, ls)[..n] == LinesOf(es[..n], ls[..n]);
    CallsForJoin(ElementsFor(root, XmlAll(es[..n])), ElementFor(root, XmlOf(es[n])));
    XmlMeans(root, es[n]);
  }

  lemma {:induction false} ReadersCount(root: string, es: seq<Entry>, ls: seq<Layout>)
    requires |ls| == |es|
    requires forall i :: 0 <= i < |es| ==> GoodEntry(es[i]) && GoodLayout(ls[i])
    ensures var xml, lines := CallsFor(ElementsFor(root, XmlAll(es))), CallsForLines(root, LinesOf(es, ls));
            && |lines| <= |xml|
            && (|lines| == |xml| <==> forall i :: 0 <= i < |es| ==> Fits(root, es[i], ls[i]))
            && (|lines| == |xml| ==> lines == xml)
  {
    hide NodeFor, ElementFor, CallForLine, Meant, Fits, GoodLayout, GoodEntry, XmlAll, LinesOf, CallsFor, ElementsFor,
         CallsForLines;
    if es == [] {
      NoCalls(root);
    } else {
      var n := |es| - 1;
      ReadersCount(root, es[..n], ls[..n]);
      ReadersNext(root, es, ls);
      LineCounts(root, es[n], ls[n]);
      LineFits(root, es[n], ls[n]);
      assert forall i :: 0 <= i < n ==> es[..n][i] == es[i] && ls[..n][i] == ls[i];
      assert (forall i :: 0 <= i < |es| ==> Fits(root, es[i], ls[i]))
        <==> Fits(root, es[n], ls[n]) && forall i :: 0 <= i < n ==> Fits(root, es[i], ls[i]);
    }
  }

  lemma NoCalls(root: string)
    ensures CallsFor(ElementsFor(root, XmlAll([]))) == [] && CallsForLines(root, LinesOf([], [])) == []
  {
  }

  lemma LineFits(root: string, e: Entry, l: Layout)
    requires GoodEntry(e) && GoodLayout(l)
    ensures Fits(root, e, l) ==> CallForLine(root, LineOf(e, l)) == Meant(root, e)
  {
    LineMeansExactly(root, e, l);
  }

  // For any list of entries both readers make the same calls in the same order exactly when every line fits.
  lemma ReadersAgreeExactly(root: string, es: seq<Entry>, ls: seq<Layout>)
    requires |ls| == |es|
    requires forall i :: 0 <= i < |es| ==> GoodEntry(es[i]) && GoodLayout(ls[i])
    ensures CallsFor(ElementsFor(root, XmlAll(es))) == CallsForLines(root, LinesOf(es, ls))
       <==> forall i :: 0 <= i < |es| ==> Fits(root, es[i], ls[i])
  {
    ReadersCount(root, es, ls);
  }

  // ----- the readers -----

  class MapFileReader {
    const serverRootNode: string
    var elements: seq<MapElement>

    constructor (rootNode: string)
      ensures serverRootNode == rootNode && elements == []
    {
      serverRootNode := rootNode;
      elements := [];
    }

    method ReadElements(children: seq<XmlNode>)
      modifies this
      ensures elements == old(elements) + ElementsFor(serverRootNode, children)
    {
      hide Stoul;
      assert children[..|children|] == children;
      var i := 0;
      while i < |children|
        invariant 0 <= i <= |children|
        invariant elements == old(elements) + ElementsFor(serverRootNode, children[..i])
      {
        assert children[..i + 1][..i] == children[..i];
        var reg := children[i];
        i := i + 1;
        if reg.XmlOther? {
          continue;
        }
        if reg.tag == "pv" {
          var nsString, name, range := "", "", "";
          if reg.ns.Some? { nsString := reg.ns.value; }
          if reg.name.Some? { name := reg.name.value; }
          if reg.range.Some? { range := reg.range.value; }
          var id := Stoul(reg.text);
          var ns := Stoul(nsString);
          if id.Parsed? && ns.Parsed? {
            elements := elements + [MapElement(NumericId(ns.value % TWO_16, id.value % TWO_32), range, name)];
          } else if id.Invalid? && ns.Parsed? {
            elements := elements + [MapElement(StringId(ns.value % TWO_16, serverRootNode + reg.text), range, name)];
          }
        }
      }
    }
  }

  // The loop over the elements of the XML reader.
  method CallElements(elements: seq<MapElement>) returns (calls: seq<EntryCall>)
    ensures calls == CallsFor(elements)
  {
    calls := [];
    assert elements[..|elements|] == elements;
    for i := 0 to |elements|
      invariant calls == CallsFor(elements[..i])
    {
      assert elements[..i + 1][..i] == elements[..i];
      if elements[i].name == "" {
        calls := calls + [EntryCall(elements[i].node, None, elements[i].range)];
      } else {
        calls := calls + [EntryCall(elements[i].node, Some(elements[i].name), elements[i].range)];
      }
    }
  }

  // The loop over the lines of the older format.
  method CallLines(rootNode: string, lines: seq<string>) returns (calls: seq<EntryCall>)
    ensures calls == CallsForLines(rootNode, lines)
  {
    hide Stoul, Tokens;
    calls := [];
    assert lines[..|lines|] == lines;
    var i := 0;
    while i < |lines|
      invariant 0 <= i <= |lines|
      invariant calls == CallsForLines(rootNode, lines[..i])
    {
      assert lines[..i + 1][..i] == lines[..i];
      var line := lines[i];
      i := i + 1;
      if line == [] || line[0] == '#' || line[0] == '<' {
        continue;
      }
      var tokens := Tokens(line);
      if |tokens| != 2 && |tokens| != 3 {
        continue;
      }
      var it := 0;
      var nodeName: Option<string> := None;
      if |tokens| == 3 {
        nodeName := Some(tokens[0]);
        it := 1;
      }
      var id := Stoul(tokens[it]);
      if id.Parsed? {
        var ns := Stoul(tokens[it + 1]);
        if ns.Parsed? {
          calls := calls + [EntryCall(NumericId(ns.value % TWO_16, id.value % TWO_32), nodeName, "")];
        }
      } else if id.Invalid? {
        var ns := Stoul(tokens[it + 1]);
        if ns.Parsed? {
          calls := calls + [EntryCall(StringId(ns.value % TWO_16, rootNode + tokens[it]), nodeName, "")];
        }
      }
    }
  }
}
