// Saving a catalogue and reading it back.
module CacheRoundTrip {
  import opened Common
  import opened Browse
  import opened Numbers
  import opened CatalogueCache

  // What a register looks like after it was saved and read.
  function Reread(r: Register, address: string, norm: string -> string): Register {
    r.(name := norm(r.name), serverAddress := address, arrayLength := r.arrayLength % TWO_32)
  }

  function RereadAll(c: seq<Register>, address: string, norm: string -> string): (d: seq<Register>)
    ensures |d| == |c| && forall i :: 0 <= i < |c| ==> d[i] == Reread(c[i], address, norm)
  {
    seq(|c|, i requires 0 <= i < |c| => Reread(c[i], address, norm))
  }

  predicate Named(r: Register) { r.id.StringId? ==> r.id.text != "" }

  predicate Readable(c: seq<Register>) {
    c != [] && c[0].serverAddress != "" && forall i :: 0 <= i < |c| ==> Named(c[i])
  }

  // One field of a list.
  lemma FieldAt(l: Locals, fs: seq<Field>, k: nat)
    requires k < |fs|
    ensures ReadFields(l, fs[k..]) == match ReadField(l, fs[k]) case Ok(m) => ReadFields(m, fs[k + 1..]) case other => other
  {
  }

  lemma LengthField(l: Locals, n: nat)
    requires n < TWO_32
    ensures ReadField(l, Field("length", TextNode(ToText(n)))) == Ok(l.(length := n))
  {
    hide ToText, Stoul, Stol;
    PrintParse(n);
  }

  lemma TypeField(l: Locals, n: nat)
    requires n < TWO_32
    ensures ReadField(l, Field("typeId", TextNode(ToText(n)))) == Ok(l.(typeId := Some(n)))
  {
    hide ToText, Stoul, Stol;
    PrintParse(n);
  }

  lemma NameSpaceField(l: Locals, n: nat)
    requires n < TWO_16
    ensures ReadField(l, Field("nameSpace", TextNode(ToText(n)))) == Ok(l.(namespaceId := Some(n)))
  {
    hide ToText, Stoul, Stol;
    PrintParse(n);
  }

  lemma BoolTexts(b: bool)
    ensures BoolText(b) == ToText(if b then 1 else 0)
  {
  }

  lemma ReadOnlyField(l: Locals, b: bool)
    ensures ReadField(l, Field("readOnly", TextNode(BoolText(b)))) == Ok(l.(isReadonly := Some(b)))
  {
    hide ToText, Stoul, Stol;
    BoolTexts(b);
    PrintParse(if b then 1 else 0);
  }

  lemma IsNumericField(l: Locals, b: bool)
    ensures ReadField(l, Field("isNumeric", TextNode(BoolText(b)))) == Ok(l.(isNumeric := Some(b)))
  {
    hide ToText, Stoul, Stol;
    BoolTexts(b);
    PrintParse(if b then 1 else 0);
  }

  lemma TextField(l: Locals, tag: string, t: string)
    ensures var f := Field(tag, TextNode(t));
            && (tag == "nodeId" ==> ReadField(l, f) == if t == "" then Undefined else Ok(l.(nodeId := t)))
            && (tag == "name" && t != "" ==> ReadField(l, f) == Ok(l.(name := t)))
            && (tag == "description" && l.description == "" ==> ReadField(l, f) == Ok(l.(description := t)))
            && (tag == "indexRange" && l.indexRange == "" ==> ReadField(l, f) == Ok(l.(indexRange := t)))
            && (tag == "access_mode" && t == WAIT_FOR_NEW_DATA ==> ReadField(l, f) == Ok(l))
  {
  }

  function LocalsOf(r: Register, norm: string -> string): Locals
    requires InRange(r)
  {
    Locals(IdText(r.id), norm(r.name), r.description, r.range, r.arrayLength % TWO_32,
           Some(r.isReadonly), Some(r.id.NumericId?), Some(r.dataType), Some(r.id.ns))
  }

  lemma ReadFieldsOf(r: Register, norm: string -> string)
    requires InRange(r) && Normaliser(norm)
    ensures ReadFields(UNSET, Fields(r, norm)) == if Named(r) then Ok(LocalsOf(r, norm)) else Undefined
  {
    hide ReadField, ReadFields, TextNode, ToText;
    var fs := Fields(r, norm);
    assert fs[0..] == fs;
    TextNonEmpty(r);
    TextField(UNSET, "nodeId", IdText(r.id));
    FieldAt(UNSET, fs, 0);
    var l1 := UNSET.(nodeId := IdText(r.id));
    TextField(l1, "name", norm(r.name));
    FieldAt(l1, fs, 1);
    var l2 := l1.(name := norm(r.name));
    TextField(l2, "description", r.description);
    FieldAt(l2, fs, 2);
    var l3 := l2.(description := r.description);
    LengthField(l3, r.arrayLength % TWO_32);
    FieldAt(l3, fs, 3);
    var l4 := l3.(length := r.arrayLength % TWO_32);
    TextField(l4, "access_mode", WAIT_FOR_NEW_DATA);
    FieldAt(l4, fs, 4);
    ReadLastFields(r, norm, l4);
  }

  lemma TextNonEmpty(r: Register)
    requires InRange(r)
    ensures IdText(r.id) != "" <==> Named(r)
  {
  }

  lemma ReadLastFields(r: Register, norm: string -> string, l4: Locals)
    requires InRange(r) && l4.indexRange == ""
    ensures ReadFields(l4, Fields(r, norm)[5..])
         == Ok(l4.(isReadonly := Some(r.isReadonly), typeId := Some(r.dataType), namespaceId := Some(r.id.ns),
                   isNumeric := Some(r.id.NumericId?), indexRange := r.range))
  {
    hide ReadField, TextNode, ToText;
    var fs := Fields(r, norm);
    ReadOnlyField(l4, r.isReadonly);
    FieldAt(l4, fs, 5);
    var l5 := l4.(isReadonly := Some(r.isReadonly));
    TypeField(l5, r.dataType);
    FieldAt(l5, fs, 6);
    var l6 := l5.(typeId := Some(r.dataType));
    NameSpaceField(l6, r.id.ns);
    FieldAt(l6, fs, 7);
    var l7 := l6.(namespaceId := Some(r.id.ns));
    IsNumericField(l7, r.id.NumericId?);
    FieldAt(l7, fs, 8);
    var l8 := l7.(isNumeric := Some(r.id.NumericId?));
    TextField(l8, "indexRange", r.range);
    FieldAt(l8, fs, 9);
    assert fs[10..] == [];
  }

  lemma ReadRegisterOf(r: Register, address: string, norm: string -> string)
    requires InRange(r) && Normaliser(norm)
    ensures ReadRegister(Fields(r, norm), address) == if Named(r) then Ok(Reread(r, address, norm)) else Undefined
  {
    hide ReadFields, Fields, Finish, ToText, Stoul;
    ReadFieldsOf(r, norm);
    if Named(r) {
      FinishOf(r, address, norm);
    }
  }

  lemma FinishOf(r: Register, address: string, norm: string -> string)
    requires InRange(r)
    ensures Finish(LocalsOf(r, norm), address) == Ok(Reread(r, address, norm))
  {
    hide ToText, Stoul;
    if r.id.NumericId? {
      PrintParse(r.id.number);
    }
  }

  lemma {:induction false} RegistersCarryNoAddress(address: string, c: seq<Register>, norm: string -> string)
    requires forall i :: 0 <= i < |c| ==> InRange(c[i])
    ensures ReadAddress(address, RegisterSections(c, norm)) == Ok(address)
  {
    if c == [] {
    } else {
      RegistersCarryNoAddress(address, c[1..], norm);
    }
  }

  lemma GeneralAddress(address: string)
    ensures ReadAddressFields("", General(address).fields) == if address == "" then Undefined else Ok(address)
  {
  }

  lemma ReadAddressOf(c: seq<Register>, norm: string -> string)
    requires forall i :: 0 <= i < |c| ==> InRange(c[i])
    ensures ReadAddress("", Saved(c, norm).sections) == if AddressOf(c) == "" then Undefined else Ok(AddressOf(c))
  {
    hide RegisterSections;
    var ss := Saved(c, norm).sections;
    assert ss[0] == General(AddressOf(c)) && ss[1..] == RegisterSections(c, norm);
    GeneralAddress(AddressOf(c));
    RegistersCarryNoAddress(AddressOf(c), c, norm);
  }

  lemma NewName(c: seq<Register>, i: nat, address: string, norm: string -> string)
    requires Valid(c, norm) && Normaliser(norm) && i < |c|
    ensures AddProperty(RereadAll(c[..i], address, norm), Reread(c[i], address, norm), norm) == RereadAll(c[..i + 1], address, norm)
  {
  }

  lemma {:induction false} ReadRegistersOf(c: seq<Register>, i: nat, address: string, norm: string -> string)
    requires Valid(c, norm) && Normaliser(norm) && i <= |c|
    ensures ReadRegisters(RereadAll(c[..i], address, norm), RegisterSections(c[i..], norm), address, norm)
         == if forall k :: i <= k < |c| ==> Named(c[k]) then Ok(RereadAll(c, address, norm)) else Undefined
    decreases |c| - i
  {
    hide Fields, ReadRegister, AddProperty, Named, Normaliser;
    if i == |c| {
      assert c[..i] == c && c[i..] == [];
    } else {
      assert c[i..][1..] == c[i + 1..];
      var ss := RegisterSections(c[i..], norm);
      assert ss[1..] == RegisterSections(c[i + 1..], norm);
      ReadRegisterOf(c[i], address, norm);
      NewName(c, i, address, norm);
      ReadRegistersOf(c, i + 1, address, norm);
    }
  }

  // What reading a saved catalogue gives, for every catalogue.
  lemma ReadSaved(c: seq<Register>, norm: string -> string)
    requires Valid(c, norm) && Normaliser(norm)
    ensures Read(Saved(c, norm), norm) == if Readable(c) then Ok(RereadAll(c, AddressOf(c), norm)) else Undefined
  {
    hide Normaliser, RegisterSections;
    ReadAddressOf(c, norm);
    ReadRegistersOf(c, 0, AddressOf(c), norm);
    var ss := Saved(c, norm).sections;
    assert ss[0] == General(AddressOf(c)) && ss[1..] == RegisterSections(c, norm);
    assert RereadAll(c[..0], AddressOf(c), norm) == [] && c[0..] == c;
  }

  // The same registers, with their names normalised.
  function Renamed(c: seq<Register>, norm: string -> string): (d: seq<Register>)
    ensures |d| == |c| && forall i :: 0 <= i < |c| ==> d[i] == c[i].(name := norm(c[i].name))
  {
    seq(|c|, i requires 0 <= i < |c| => c[i].(name := norm(c[i].name)))
  }

  // The same registers come back, in order and up to the normalisation of names, exactly when there are any, they
  // share one server address that is not empty, no node id is empty, and the lengths fit into 32 bits.
  lemma RoundTripExactly(c: seq<Register>, norm: string -> string)
    requires Valid(c, norm) && Normaliser(norm)
    ensures Read(Saved(c, norm), norm) == Ok(Renamed(c, norm))
       <==> Readable(c) && forall i :: 0 <= i < |c| ==> c[i].serverAddress == c[0].serverAddress && c[i].arrayLength < TWO_32
  {
    hide Read, Saved, Normaliser, Valid;
    ReadSaved(c, norm);
    var back, wanted := RereadAll(c, AddressOf(c), norm), Renamed(c, norm);
    forall i | 0 <= i < |c|
      ensures back[i] == wanted[i] <==> c[i].serverAddress == AddressOf(c) && c[i].arrayLength < TWO_32
    {
    }
    if back == wanted {
      assert forall i :: 0 <= i < |c| ==> back[i] == wanted[i];
    }
  }

  lemma FieldsAgain(r: Register, address: string, norm: string -> string)
    requires InRange(r) && Normaliser(norm)
    ensures InRange(Reread(r, address, norm)) && Fields(Reread(r, address, norm), norm) == Fields(r, norm)
  {
    assert norm(norm(r.name)) == norm(r.name);
  }

  lemma {:induction false} SectionsAgain(c: seq<Register>, address: string, norm: string -> string)
    requires Normaliser(norm) && forall i :: 0 <= i < |c| ==> InRange(c[i])
    ensures forall i :: 0 <= i < |c| ==> InRange(RereadAll(c, address, norm)[i])
    ensures RegisterSections(RereadAll(c, address, norm), norm) == RegisterSections(c, norm)
  {
    hide Fields, Normaliser;
    forall i | 0 <= i < |c| ensures InRange(RereadAll(c, address, norm)[i]) {
      FieldsAgain(c[i], address, norm);
    }
    if c == [] {
    } else {
      FieldsAgain(c[0], address, norm);
      assert RereadAll(c, address, norm)[1..] == RereadAll(c[1..], address, norm);
      SectionsAgain(c[1..], address, norm);
    }
  }

  // Saving what was read yields the same document again, whenever it could be read at all.
  lemma SaveAgain(c: seq<Register>, norm: string -> string)
    requires Valid(c, norm) && Normaliser(norm) && Read(Saved(c, norm), norm).Ok?
    ensures var d := Read(Saved(c, norm), norm).value;
            && Valid(d, norm)
            && Saved(d, norm) == Saved(c, norm)
  {
    ReadSaved(c, norm);
    SectionsAgain(c, AddressOf(c), norm);
    var d := RereadAll(c, AddressOf(c), norm);
    forall i, j | 0 <= i < j < |d| ensures norm(d[i].name) != norm(d[j].name) {
      assert norm(norm(c[i].name)) == norm(c[i].name) && norm(norm(c[j].name)) == norm(c[j].name);
    }
  }

  // ----- white space -----

  function WithoutBlanks(fs: seq<Field>): seq<Field> {
    if fs == [] then [] else (if fs[0].Blank? then [] else [fs[0]]) + WithoutBlanks(fs[1..])
  }

  function WithoutGaps(ss: seq<Section>): seq<Section> {
    if ss == [] then []
    else (if ss[0].Gap? then [] else [ss[0].(fields := WithoutBlanks(ss[0].fields))]) + WithoutGaps(ss[1..])
  }

  lemma {:induction false} FieldsIgnoreBlanks(l: Locals, fs: seq<Field>)
    ensures ReadFields(l, WithoutBlanks(fs)) == ReadFields(l, fs)
    decreases |fs|
  {
    if fs != [] {
      var rest := WithoutBlanks(fs[1..]);
      if fs[0].Blank? {
        assert WithoutBlanks(fs) == rest;
        FieldsIgnoreBlanks(l, fs[1..]);
      } else {
        assert WithoutBlanks(fs)[1..] == rest;
        if ReadField(l, fs[0]).Ok? {
          FieldsIgnoreBlanks(ReadField(l, fs[0]).value, fs[1..]);
        }
      }
    }
  }

  lemma {:induction false} AddressIgnoresBlanks(address: string, fs: seq<Field>)
    ensures ReadAddressFields(address, WithoutBlanks(fs)) == ReadAddressFields(address, fs)
    decreases |fs|
  {
    if fs == [] {
    } else {
      var rest := WithoutBlanks(fs[1..]);
      assert fs[0].Blank? ==> WithoutBlanks(fs) == rest;
      assert !fs[0].Blank? ==> WithoutBlanks(fs)[1..] == rest;
      AddressIgnoresBlanks(address, fs[1..]);
      if fs[0].Field? && fs[0].text.Some? {
        AddressIgnoresBlanks(fs[0].text.value, fs[1..]);
      }
    }
  }

  lemma {:induction false} AddressIgnoresGaps(address: string, ss: seq<Section>)
    ensures ReadAddress(address, WithoutGaps(ss)) == ReadAddress(address, ss)
    decreases |ss|
  {
    if ss != [] {
      var rest := WithoutGaps(ss[1..]);
      if ss[0].Gap? {
        assert WithoutGaps(ss) == rest;
        AddressIgnoresGaps(address, ss[1..]);
      } else {
        assert WithoutGaps(ss)[1..] == rest;
        AddressIgnoresBlanks(address, ss[0].fields);
        if ss[0].tag != "general" {
          AddressIgnoresGaps(address, ss[1..]);
        } else if ReadAddressFields(address, ss[0].fields).Ok? {
          AddressIgnoresGaps(ReadAddressFields(address, ss[0].fields).value, ss[1..]);
        }
      }
    }
  }

  lemma {:induction false} RegistersIgnoreGaps(c: seq<Register>, ss: seq<Section>, address: string, norm: string -> string)
    ensures ReadRegisters(c, WithoutGaps(ss), address, norm) == ReadRegisters(c, ss, address, norm)
    decreases |ss|
  {
    hide AddProperty, Finish;
    if ss != [] {
      var rest := WithoutGaps(ss[1..]);
      if ss[0].Gap? {
        assert WithoutGaps(ss) == rest;
        RegistersIgnoreGaps(c, ss[1..], address, norm);
      } else {
        assert WithoutGaps(ss)[1..] == rest;
        FieldsIgnoreBlanks(UNSET, ss[0].fields);
        if ss[0].tag == "general" {
          RegistersIgnoreGaps(c, ss[1..], address, norm);
        } else if ReadRegister(ss[0].fields, address).Ok? {
          RegistersIgnoreGaps(AddProperty(c, ReadRegister(ss[0].fields, address).value, norm), ss[1..], address, norm);
        }
      }
    }
  }

  // Reading does not depend on white space between elements, nor on the tag of the root.
  lemma ReadIgnoresLayout(doc: Document, tag: string, norm: string -> string)
    ensures Read(Document(tag, doc.namespace, WithoutGaps(doc.sections)), norm) == Read(doc, norm)
  {
    AddressIgnoresGaps("", doc.sections);
    var a := ReadAddress("", doc.sections);
    if a.Ok? {
      RegistersIgnoreGaps([], doc.sections, a.value, norm);
    }
  }
}
