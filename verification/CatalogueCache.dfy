// The catalogue cache: what the writer puts into the document and what the reader makes of it.
//
// A document is a root with sections, a section is a list of fields with an optional text; both levels may contain
// other nodes (white space). Text is kept as it is, except that an element with an empty text has no text node once
// the document has been written and parsed. The normalisation of register paths is a parameter.
module CatalogueCache {
  import opened Common
  import opened Browse
  import opened Numbers

  const NAMESPACE: string := "https://github.com/ChimeraTK/DeviceAccess-OpcUaBackend"
  const WAIT_FOR_NEW_DATA: string := "wait_for_new_data"

  datatype Field = Field(tag: string, text: Option<string>) | Blank

  datatype Section = Section(tag: string, fields: seq<Field>) | Gap

  datatype Document = Document(tag: string, namespace: string, sections: seq<Section>)

  datatype Register = Register(
    id: NodeId,
    name: string,          // nodeBrowseName
    range: string,
    dataType: nat,
    arrayLength: nat,
    serverAddress: string,
    description: string,
    isReadonly: bool)

  // LogicError is what the caller of the reader handles; Undefined is a missing text node or an unset variable.
  datatype Result<+T> = Ok(value: T) | LogicError | OtherException | Undefined

  // RegisterPath: idempotent, and never empty.
  ghost predicate Normaliser(norm: string -> string) {
    forall s: string :: norm(s) != "" && norm(norm(s)) == norm(s)
  }

  // ----- the catalogue -----

  predicate KnownType(dataType: nat) { 1 <= dataType <= 12 }

  predicate Has(c: seq<Register>, name: string, norm: string -> string) {
    exists i :: 0 <= i < |c| && norm(c[i].name) == norm(name)
  }

  // Unknown types and names that exist already are skipped.
  function AddProperty(c: seq<Register>, r: Register, norm: string -> string): seq<Register> {
    if KnownType(r.dataType) && !Has(c, r.name, norm) then c + [r] else c
  }

  predicate InRange(r: Register) {
    && KnownType(r.dataType)
    && match r.id
       case StringId(ns, _) => ns < TWO_16
       case NumericId(ns, number) => ns < TWO_16 && number < TWO_32
       case OtherId(_) => false
  }

  ghost predicate Valid(c: seq<Register>, norm: string -> string) {
    && (forall i :: 0 <= i < |c| ==> InRange(c[i]))
    && (forall i, j :: 0 <= i < j < |c| ==> norm(c[i].name) != norm(c[j].name))
  }

  lemma AddPropertyKeepsValid(c: seq<Register>, r: Register, norm: string -> string)
    requires Valid(c, norm) && (KnownType(r.dataType) ==> InRange(r))
    ensures Valid(AddProperty(c, r, norm), norm)
  {
  }

  class RegisterCatalogue {
    var registers: seq<Register>

    constructor ()
      ensures registers == []
    {
      registers := [];
    }

    method AddRegisterProperty(node: NodeId, browseName: string, range: string, dataType: nat, arrayLength: nat,
        serverAddress: string, description: string, isReadonly: bool, norm: string -> string)
      modifies this
      ensures registers == AddProperty(old(registers),
                Register(node, browseName, range, dataType, arrayLength, serverAddress, description, isReadonly), norm)
    {
      var entry := Register(node, browseName, "", 0, 0, serverAddress, "", true);
      entry := entry.(dataType := dataType);
      entry := entry.(description := description);
      entry := entry.(arrayLength := arrayLength);
      entry := entry.(isReadonly := isReadonly);
      entry := entry.(range := range);
      if entry.dataType < 1 || entry.dataType > 12 {
        return;
      }
      if !Has(registers, entry.name, norm) {
        registers := registers + [entry];
      }
    }
  }

  // ----- writing -----

  function TextNode(s: string): Option<string> { if s == "" then None else Some(s) }

  function BoolText(b: bool): string { if b then "1" else "0" }

  function IdText(id: NodeId): string
    requires !id.OtherId?
  {
    if id.StringId? then id.text else ToText(id.number)
  }

  function Fields(r: Register, norm: string -> string): seq<Field>
    requires InRange(r)
  {
    [ Field("nodeId", TextNode(IdText(r.id))),
      Field("name", TextNode(norm(r.name))),
      Field("description", TextNode(r.description)),
      Field("length", TextNode(ToText(r.arrayLength % TWO_32))),
      Field("access_mode", TextNode(WAIT_FOR_NEW_DATA)),
      Field("readOnly", TextNode(BoolText(r.isReadonly))),
      Field("typeId", TextNode(ToText(r.dataType))),
      Field("nameSpace", TextNode(ToText(r.id.ns))),
      Field("isNumeric", TextNode(BoolText(r.id.NumericId?))),
      Field("indexRange", TextNode(r.range)) ]
  }

  function RegisterSections(c: seq<Register>, norm: string -> string): seq<Section>
    requires forall i :: 0 <= i < |c| ==> InRange(c[i])
  {
    if c == [] then [] else [Section("register", Fields(c[0], norm))] + RegisterSections(c[1..], norm)
  }

  function AddressOf(c: seq<Register>): string { if c == [] then "" else c[0].serverAddress }

  function General(address: string): Section { Section("general", [Field("serverAddress", TextNode(address))]) }

  function Saved(c: seq<Register>, norm: string -> string): Document
    requires forall i :: 0 <= i < |c| ==> InRange(c[i])
  {
    Document("catalogue", NAMESPACE, [General(AddressOf(c))] + RegisterSections(c, norm))
  }

  method SaveCatalogue(c: seq<Register>, norm: string -> string) returns (doc: Document)
    requires forall i :: 0 <= i < |c| ==> InRange(c[i])
    ensures doc == Saved(c, norm)
  {
    hide Fields;
    var serverAddressText: Option<string> := None;
    var addressSet := false;
    var sections: seq<Section> := [];
    for i := 0 to |c|
      invariant sections + RegisterSections(c[i..], norm) == RegisterSections(c, norm)
      invariant addressSet == (i > 0)
      invariant serverAddressText == if i > 0 then TextNode(AddressOf(c)) else None
    {
      if !addressSet {
        serverAddressText := TextNode(c[i].serverAddress);
        addressSet := true;
      }
      assert c[i..][1..] == c[i + 1..];
      assert RegisterSections(c[i..], norm) == [Section("register", Fields(c[i], norm))] + RegisterSections(c[i + 1..], norm);
      sections := sections + [Section("register", Fields(c[i], norm))];
    }
    doc := Document("catalogue", NAMESPACE, [Section("general", [Field("serverAddress", serverAddressText)])] + sections);
  }

  // ----- reading -----

  // The local variables of parseRegister.
  datatype Locals = Locals(
    nodeId: string, name: string, description: string, indexRange: string, length: nat,
    isReadonly: Option<bool>, isNumeric: Option<bool>, typeId: Option<nat>, namespaceId: Option<nat>)

  const UNSET: Locals := Locals("", "", "", "", 0, None, None, None, None)

  predicate KnownAccessModes(t: string) {
    t in ["", "raw", WAIT_FOR_NEW_DATA, "raw," + WAIT_FOR_NEW_DATA, WAIT_FOR_NEW_DATA + ",raw"]
  }

  function WithText(f: Field, l: string -> Result<Locals>): Result<Locals>
    requires f.Field?
  {
    if f.text.None? then Undefined else l(f.text.value)
  }

  function WithNumber(p: Parse, l: int -> Locals): Result<Locals> {
    if p.Parsed? then Ok(l(p.value)) else LogicError
  }

  function ReadField(l: Locals, f: Field): Result<Locals> {
    if f.Blank? then Ok(l)
    else if f.tag == "name" then WithText(f, t => Ok(l.(name := t)))
    else if f.tag == "nodeId" then WithText(f, t => Ok(l.(nodeId := t)))
    else if f.tag == "length" then WithText(f, t => WithNumber(Stoul(t), v => l.(length := v % TWO_32)))
    else if f.tag == "access_mode" then
      if KnownAccessModes(if f.text.Some? then f.text.value else "") then Ok(l) else LogicError
    else if f.tag == "description" then Ok(if f.text.Some? then l.(description := f.text.value) else l)
    else if f.tag == "readOnly" then WithText(f, t => WithNumber(Stol(t), v => l.(isReadonly := Some(v % TWO_32 != 0))))
    else if f.tag == "typeId" then WithText(f, t => WithNumber(Stol(t), v => l.(typeId := Some(v % TWO_32))))
    else if f.tag == "nameSpace" then WithText(f, t => WithNumber(Stol(t), v => l.(namespaceId := Some(v % TWO_16))))
    else if f.tag == "isNumeric" then WithText(f, t => WithNumber(Stol(t), v => l.(isNumeric := Some(v % TWO_32 != 0))))
    else if f.tag == "indexRange" then Ok(if f.text.Some? then l.(indexRange := f.text.value) else l)
    else Ok(l)
  }

  function ReadFields(l: Locals, fs: seq<Field>): Result<Locals>
    decreases |fs|
  {
    if fs == [] then Ok(l)
    else match ReadField(l, fs[0])
      case Ok(m) => ReadFields(m, fs[1..])
      case other => other
  }

  function Finish(l: Locals, address: string): Result<Register> {
    if l.isReadonly.None? || l.isNumeric.None? || l.typeId.None? || l.namespaceId.None? then Undefined
    else if l.isNumeric.value then
      match Stoul(l.nodeId)
      case Parsed(v) =>
        Ok(Register(NumericId(l.namespaceId.value, v % TWO_32), l.name, l.indexRange, l.typeId.value, l.length, address,
                    l.description, l.isReadonly.value))
      case _ => OtherException
    else
      Ok(Register(StringId(l.namespaceId.value, l.nodeId), l.name, l.indexRange, l.typeId.value, l.length, address,
                  l.description, l.isReadonly.value))
  }

  function ReadRegister(fs: seq<Field>, address: string): Result<Register> {
    match ReadFields(UNSET, fs)
    case Ok(l) => Finish(l, address)
    case LogicError => LogicError
    case OtherException => OtherException
    case Undefined => Undefined
  }

  function ReadAddressFields(address: string, fs: seq<Field>): Result<string>
    decreases |fs|
  {
    if fs == [] then Ok(address)
    else if fs[0].Field? && fs[0].tag == "serverAddress" then
      if fs[0].text.None? then Undefined else ReadAddressFields(fs[0].text.value, fs[1..])
    else ReadAddressFields(address, fs[1..])
  }

  function ReadAddress(address: string, ss: seq<Section>): Result<string>
    decreases |ss|
  {
    if ss == [] then Ok(address)
    else if ss[0].Section? && ss[0].tag == "general" then
      match ReadAddressFields(address, ss[0].fields)
      case Ok(a) => ReadAddress(a, ss[1..])
      case other => other
    else ReadAddress(address, ss[1..])
  }

  function ReadRegisters(c: seq<Register>, ss: seq<Section>, address: string, norm: string -> string): Result<seq<Register>>
    decreases |ss|
  {
    if ss == [] then Ok(c)
    else if ss[0].Section? && ss[0].tag != "general" then
      match ReadRegister(ss[0].fields, address)
      case Ok(r) => ReadRegisters(AddProperty(c, r, norm), ss[1..], address, norm)
      case LogicError => LogicError
      case OtherException => OtherException
      case Undefined => Undefined
    else ReadRegisters(c, ss[1..], address, norm)
  }

  // The namespace of the root is checked; a wrong root tag only creates an exception object.
  function Read(doc: Document, norm: string -> string): Result<seq<Register>> {
    if doc.namespace != NAMESPACE then LogicError
    else
      match ReadAddress("", doc.sections)
      case Ok(a) => ReadRegisters([], doc.sections, a, norm)
      case LogicError => LogicError
      case OtherException => OtherException
      case Undefined => Undefined
  }

  method ParseRegister(fields: seq<Field>, address: string) returns (r: Result<Register>)
    ensures r == ReadRegister(fields, address)
  {
    var l := UNSET;
    var i := 0;
    while i < |fields|
      invariant 0 <= i <= |fields|
      invariant ReadFields(UNSET, fields) == ReadFields(l, fields[i..])
    {
      assert fields[i..][1..] == fields[i + 1..];
      var next := ReadField(l, fields[i]);
      if next.LogicError? { return LogicError; }
      if next.OtherException? { return OtherException; }
      if next.Undefined? { return Undefined; }
      l := next.value;
      i := i + 1;
    }
    r := Finish(l, address);
  }

  method FindAddress(sections: seq<Section>) returns (r: Result<string>)
    ensures r == ReadAddress("", sections)
  {
    var serverAddress := "";
    for i := 0 to |sections|
      invariant ReadAddress("", sections) == ReadAddress(serverAddress, sections[i..])
    {
      assert sections[i..][1..] == sections[i + 1..];
      if sections[i].Section? && sections[i].tag == "general" {
        var fields := sections[i].fields;
        ghost var start := serverAddress;
        for j := 0 to |fields|
          invariant ReadAddressFields(start, fields) == ReadAddressFields(serverAddress, fields[j..])
        {
          assert fields[j..][1..] == fields[j + 1..];
          if fields[j].Field? && fields[j].tag == "serverAddress" {
            if fields[j].text.None? { return Undefined; }
            serverAddress := fields[j].text.value;
          }
        }
      }
    }
    r := Ok(serverAddress);
  }

  method ReadCatalogue(doc: Document, norm: string -> string) returns (r: Result<seq<Register>>)
    ensures r == Read(doc, norm)
  {
    if doc.namespace != NAMESPACE {
      return LogicError;
    }
    var address := FindAddress(doc.sections);
    if !address.Ok? {
      return match address case LogicError => LogicError case OtherException => OtherException case _ => Undefined;
    }
    var catalogue := new RegisterCatalogue();
    for i := 0 to |doc.sections|
      invariant ReadRegisters([], doc.sections, address.value, norm)
             == ReadRegisters(catalogue.registers, doc.sections[i..], address.value, norm)
    {
      assert doc.sections[i..][1..] == doc.sections[i + 1..];
      var reg := doc.sections[i];
      if reg.Section? && reg.tag != "general" {
        var parsed := ParseRegister(reg.fields, address.value);
        if !parsed.Ok? {
          return match parsed case LogicError => LogicError case OtherException => OtherException case _ => Undefined;
        }
        var p := parsed.value;
        catalogue.AddRegisterProperty(p.id, p.name, p.range, p.dataType, p.arrayLength, p.serverAddress, p.description,
          p.isReadonly, norm);
      }
    }
    r := Ok(catalogue.registers);
  }
}
