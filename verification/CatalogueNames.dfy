// How addCatalogueEntry derives the name of a register that the map file does not name, or that browsing found.
module CatalogueNames {
  import opened Common
  import opened Browse
  import opened Numbers

  const NPOS: nat := TWO_64 - 1

  predicate OccursAt(s: string, pattern: string, i: nat) {
    i + |pattern| <= |s| && s[i..i + |pattern|] == pattern
  }

  // std::string::rfind
  function RFind(s: string, pattern: string): (r: nat)
    ensures (exists i: nat :: OccursAt(s, pattern, i)) ==>
              OccursAt(s, pattern, r) && forall i: nat :: OccursAt(s, pattern, i) ==> i <= r
    ensures !(exists i: nat :: OccursAt(s, pattern, i)) ==> r == NPOS
  {
    RFindFrom(s, pattern, |s|)
  }

  function RFindFrom(s: string, pattern: string, i: nat): (r: nat)
    ensures (exists k: nat :: k <= i && OccursAt(s, pattern, k)) ==>
              OccursAt(s, pattern, r) && r <= i && forall k: nat :: k <= i && OccursAt(s, pattern, k) ==> k <= r
    ensures !(exists k: nat :: k <= i && OccursAt(s, pattern, k)) ==> r == NPOS
  {
    if OccursAt(s, pattern, i) then i else if i == 0 then NPOS else RFindFrom(s, pattern, i - 1)
  }

  // The root without "Dir" at its end; lengths are subtracted in 64 bits.
  function EffectiveRoot(root: string): string {
    var path := RFind(root, "Dir");
    if path == (TWO_64 + |root| - 3) % TWO_64 then root[..if path <= |root| then path else |root|] else root
  }

  // std::string::erase(0, n)
  function EraseFront(s: string, n: nat): string { if n <= |s| then s[n..] else [] }

  // The name of a node without a name of its own; none stands for the out_of_range exception of at(0).
  function NameOf(root: string, node: NodeId): Option<string>
    requires !node.OtherId?
  {
    var text := if node.StringId? then node.text else "numeric/" + ToText(node.number);
    if text == [] then None
    else
      var relative := if text[0] == '/' then text[1..] else text;
      Some(EraseFront(relative, |EffectiveRoot(root)|))
  }

  predicate EndsInDir(root: string) { |root| >= 3 && root[|root| - 3..] == "Dir" }

  // npos equals the wrapped length of a root of two characters, of which nothing is then cut off.
  lemma CutAt(root: string, path: nat)
    requires |root| < TWO_63 && (path == NPOS || path + 3 <= |root|)
    ensures path == (TWO_64 + |root| - 3) % TWO_64 <==> path == |root| - 3 || (path == NPOS && |root| == 2)
  {
  }

  lemma RootEndsInDir(root: string)
    requires EndsInDir(root)
    ensures RFind(root, "Dir") == |root| - 3
  {
    hide RFind;
    assert OccursAt(root, "Dir", |root| - 3);
  }

  lemma RootEndsOtherwise(root: string)
    requires !EndsInDir(root)
    ensures var path := RFind(root, "Dir"); path == NPOS || (path + 3 <= |root| && path != |root| - 3)
  {
    hide RFind;
    if i: nat :| OccursAt(root, "Dir", i) {
      assert OccursAt(root, "Dir", RFind(root, "Dir"));
    }
  }

  // Only "Dir" at the very end is removed, although rfind's npos can equal a wrapped length.
  lemma EffectiveRootExactly(root: string)
    requires |root| < TWO_63
    ensures EffectiveRoot(root) == if EndsInDir(root) then root[..|root| - 3] else root
  {
    hide RFind;
    if EndsInDir(root) {
      RootEndsInDir(root);
    } else {
      RootEndsOtherwise(root);
    }
    CutAt(root, RFind(root, "Dir"));
  }

  // A string node whose root was put in front gets its map file text as name exactly when the root does not end in
  // "Dir" and the whole does not start with "/" (or the text is empty).
  lemma PrefixThenStripExactly(root: string, text: string, ns: nat)
    requires |root| + |text| < TWO_63
    ensures NameOf(root, StringId(ns, root + text)) == Some(text)
       <==> !EndsInDir(root) && root + text != [] && ((root + text)[0] != '/' || text == [])
  {
    EffectiveRootExactly(root);
    var whole := root + text;
    if whole != [] {
      var relative := if whole[0] == '/' then whole[1..] else whole;
      var n := |EffectiveRoot(root)|;
      var name := EraseFront(relative, n);
      assert whole[|root|..] == text;
      if !EndsInDir(root) {
        assert whole[0] != '/' ==> name == whole[|root|..];
        assert whole[0] == '/' ==> |name| == if n <= |whole| - 1 then |whole| - 1 - n else 0;
      } else {
        assert |name| > |text|;
      }
    }
  }

  // In particular for every root of the documented form.
  lemma PrefixThenStrip(root: string, text: string, ns: nat)
    requires root != [] && root[0] != '/' && !EndsInDir(root) && |root| + |text| < TWO_63
    ensures NameOf(root, StringId(ns, root + text)) == Some(text)
  {
    PrefixThenStripExactly(root, text, ns);
  }

  // A node with a numeric id keeps its name "numeric/<id>" exactly when the root is empty or just "Dir".
  lemma NumericNameExactly(root: string, ns: nat, number: nat)
    requires |root| < TWO_63
    ensures NameOf(root, NumericId(ns, number)) == Some("numeric/" + ToText(number)) <==> root == "" || root == "Dir"
  {
    EffectiveRootExactly(root);
    var text := "numeric/" + ToText(number);
    var n := |EffectiveRoot(root)|;
    assert n > 0 ==> |EraseFront(text, n)| < |text|;
    if EndsInDir(root) && |root| == 3 {
      assert root == "Dir";
    }
  }

  // Two different string nodes of the map file never get the same name below such a root.
  lemma NamesDiffer(root: string, a: string, b: string, ns: nat)
    requires |root| + |a| < TWO_63 && |root| + |b| < TWO_63 && a != b
    requires root != [] && root[0] != '/' && !EndsInDir(root)
    ensures NameOf(root, StringId(ns, root + a)) != NameOf(root, StringId(ns, root + b))
  {
    PrefixThenStrip(root, a, ns);
    PrefixThenStrip(root, b, ns);
  }
}
