// The format of the cache file, and what the reader makes of documents that were not written by this writer.
module CacheFormat {
  import opened Common
  import opened Browse
  import opened Numbers
  import opened CatalogueCache

  // The built-in types of section 5.1.2 of OPC 10000-6 up to String, in the order of their numbers.
  datatype BuiltIn =
    | Boolean | SByte | Byte | Int16 | UInt16 | Int32 | UInt32 | Int64 | UInt64 | Float | Double | String | DateTime | Guid

  function TypeNumber(b: BuiltIn): nat {
    match b
    case Boolean => 1
    case SByte => 2
    case Byte => 3
    case Int16 => 4
    case UInt16 => 5
    case Int32 => 6
    case UInt32 => 7
    case Int64 => 8
    case UInt64 => 9
    case Float => 10
    case Double => 11
    case String => 12
    case DateTime => 13
    case Guid => 14
  }

  // Registers are made for Booleans, numbers and strings, and for nothing else.
  lemma KnownTypesExactly(dataType: nat)
    ensures KnownType(dataType) <==> exists b: BuiltIn :: TypeNumber(b) == dataType && !b.DateTime? && !b.Guid?
  {
    var all := [Boolean, SByte, Byte, Int16, UInt16, Int32, UInt32, Int64, UInt64, Float, Double, String];
    if KnownType(dataType) {
      assert TypeNumber(all[dataType - 1]) == dataType;
    }
  }

  // ----- the document of one register -----

  lemma TwoDigits(n: nat)
    requires 10 <= n < 100
    ensures ToText(n) == [DigitChar(n / 10), DigitChar(n % 10)]
  {
    assert ToText(n / 10) == [DigitChar(n / 10)];
  }

  // What a file with one register looks like.
  lemma SampleDocument(norm: string -> string)
    requires norm("Dir/temp") == "Dir/temp"
    ensures var r := Register(StringId(1, "Dir/temp"), "Dir/temp", "2:4", 11, 3, "opc.tcp://host:4840", "in degrees", true);
            InRange(r) && Saved([r], norm) ==
            Document("catalogue", "https://github.com/ChimeraTK/DeviceAccess-OpcUaBackend", [
              Section("general", [Field("serverAddress", Some("opc.tcp://host:4840"))]),
              Section("register", [
                Field("nodeId", Some("Dir/temp")), Field("name", Some("Dir/temp")), Field("description", Some("in degrees")),
                Field("length", Some("3")), Field("access_mode", Some("wait_for_new_data")), Field("readOnly", Some("1")),
                Field("typeId", Some("11")), Field("nameSpace", Some("1")), Field("isNumeric", Some("0")),
                Field("indexRange", Some("2:4"))])])
  {
    var r := Register(StringId(1, "Dir/temp"), "Dir/temp", "2:4", 11, 3, "opc.tcp://host:4840", "in degrees", true);
    TwoDigits(11);
    SampleFields(r, norm);
    assert [r][1..] == [] && RegisterSections([], norm) == [];
  }

  lemma SampleFields(r: Register, norm: string -> string)
    requires norm("Dir/temp") == "Dir/temp"
    requires r == Register(StringId(1, "Dir/temp"), "Dir/temp", "2:4", 11, 3, "opc.tcp://host:4840", "in degrees", true)
    ensures InRange(r)
    ensures Fields(r, norm) ==
            [ Field("nodeId", Some("Dir/temp")), Field("name", Some("Dir/temp")), Field("description", Some("in degrees")),
              Field("length", Some("3")), Field("access_mode", Some("wait_for_new_data")), Field("readOnly", Some("1")),
              Field("typeId", Some("11")), Field("nameSpace", Some("1")), Field("isNumeric", Some("0")),
              Field("indexRange", Some("2:4")) ]
  {
    TwoDigits(11);
    assert ToText(3) == "3" && ToText(1) == "1";
  }

  // ----- fields that are missing -----

  // The fields without which nothing is known about a register.
  const OBLIGATORY: set<string> := {"readOnly", "isNumeric", "typeId", "nameSpace"}

  predicate Knows(l: Locals, tag: string) {
    (tag == "readOnly" ==> l.isReadonly.Some?) && (tag == "isNumeric" ==> l.isNumeric.Some?)
    && (tag == "typeId" ==> l.typeId.Some?) && (tag == "nameSpace" ==> l.namespaceId.Some?)
  }

  lemma OneFieldKnows(l: Locals, f: Field, tag: string)
    requires tag in OBLIGATORY && ReadField(l, f).Ok?
    ensures Knows(ReadField(l, f).value, tag) <==> Knows(l, tag) || (f.Field? && f.tag == tag)
  {
    hide Stol, Stoul;
  }

  lemma {:induction false} FieldsKnow(l: Locals, fs: seq<Field>, tag: string)
    requires tag in OBLIGATORY && ReadFields(l, fs).Ok?
    ensures Knows(ReadFields(l, fs).value, tag) <==> Knows(l, tag) || exists i :: 0 <= i < |fs| && fs[i].Field? && fs[i].tag == tag
    decreases |fs|
  {
    hide ReadField, Knows;
    if fs == [] {
    } else {
      OneFieldKnows(l, fs[0], tag);
      FieldsKnow(ReadField(l, fs[0]).value, fs[1..], tag);
      if i :| 0 <= i < |fs| && fs[i].Field? && fs[i].tag == tag {
        assert i == 0 || fs[1..][i - 1] == fs[i];
      }
    }
  }

  // When every field can be read, a register comes out exactly if the four obligatory fields are there and the id of a
  // numeric node is a number; other fields may be missing, and unknown ones do not matter.
  lemma RegisterReadExactly(fs: seq<Field>, address: string)
    requires ReadFields(UNSET, fs).Ok?
    ensures ReadRegister(fs, address).Ok? <==>
              && (forall tag :: tag in OBLIGATORY ==> exists i :: 0 <= i < |fs| && fs[i].Field? && fs[i].tag == tag)
              && var l := ReadFields(UNSET, fs).value; l.isNumeric == Some(true) ==> Stoul(l.nodeId).Parsed?
  {
    hide ReadFields, Stoul;
    var l := ReadFields(UNSET, fs).value;
    forall tag | tag in OBLIGATORY
      ensures Knows(l, tag) <==> exists i :: 0 <= i < |fs| && fs[i].Field? && fs[i].tag == tag
    {
      FieldsKnow(UNSET, fs, tag);
    }
    assert "readOnly" in OBLIGATORY && "isNumeric" in OBLIGATORY && "typeId" in OBLIGATORY && "nameSpace" in OBLIGATORY;
    DistinctTags();
  }

  lemma DistinctTags()
    ensures |"readOnly"| == 8 && |"isNumeric"| == 9 && |"typeId"| == 6 && |"nameSpace"| == 9
    ensures "isNumeric" != "nameSpace"
  {
    assert "isNumeric"[0] != "nameSpace"[0];
  }

  // A text that is no number, in any of the number fields, is an error the caller handles; a missing text is not.
  lemma NumberFieldErrors(l: Locals, tag: string, t: string)
    requires tag in {"length", "readOnly", "typeId", "nameSpace", "isNumeric"}
    ensures Stoul(t).Invalid? ==> ReadField(l, Field(tag, Some(t))) == LogicError
    ensures ReadField(l, Field(tag, None)) == Undefined
  {
    hide Stoul, Stol;
    SameTexts(t);
  }

  // A flag is set by any number but 0; types are cut to 32 bits and namespaces to 16.
  lemma NumberFieldValues(l: Locals, n: nat)
    requires n < TWO_63
    ensures ReadField(l, Field("readOnly", Some(ToText(n)))) == Ok(l.(isReadonly := Some(n % TWO_32 > 0)))
    ensures ReadField(l, Field("isNumeric", Some(ToText(n)))) == Ok(l.(isNumeric := Some(n % TWO_32 > 0)))
    ensures ReadField(l, Field("typeId", Some(ToText(n)))) == Ok(l.(typeId := Some(n % TWO_32)))
    ensures ReadField(l, Field("nameSpace", Some(ToText(n)))) == Ok(l.(namespaceId := Some(n % TWO_16)))
    ensures ReadField(l, Field("length", Some(ToText(n)))) == Ok(l.(length := n % TWO_32))
  {
    hide Stoul, Stol, ToText;
    PrintParse(n);
  }

  lemma SameTexts(t: string)
    ensures Stoul(t).Invalid? <==> Stol(t).Invalid?
  {
  }

  // The access modes of a register are a list of the two flags there are, without repetition; anything else is an error.
  lemma AccessModesExactly(l: Locals, t: string)
    ensures ReadField(l, Field("access_mode", Some(t))) ==
            if t in {"", "raw", "wait_for_new_data", "raw,wait_for_new_data", "wait_for_new_data,raw"} then Ok(l) else LogicError
    ensures ReadField(l, Field("access_mode", None)) == Ok(l)
  {
    assert "raw," + "wait_for_new_data" == "raw,wait_for_new_data" && "wait_for_new_data" + ",raw" == "wait_for_new_data,raw";
  }

  // What a bad document ends in: another namespace is an error that the caller handles, and nothing else about the root
  // matters; the id of a numeric node that is no number is an exception of its own kind.
  lemma BadDocuments(doc: Document, norm: string -> string)
    ensures doc.namespace != "https://github.com/ChimeraTK/DeviceAccess-OpcUaBackend" ==> Read(doc, norm) == LogicError
    ensures doc.namespace == "https://github.com/ChimeraTK/DeviceAccess-OpcUaBackend" && doc.sections == [] ==>
              Read(doc, norm) == Ok([])
  {
  }

  lemma BadNodeId(fs: seq<Field>, address: string)
    requires ReadFields(UNSET, fs).Ok?
    requires forall tag :: tag in OBLIGATORY ==> exists i :: 0 <= i < |fs| && fs[i].Field? && fs[i].tag == tag
    requires var l := ReadFields(UNSET, fs).value; l.isNumeric == Some(true) && !Stoul(l.nodeId).Parsed?
    ensures ReadRegister(fs, address) == OtherException
  {
    hide ReadFields, Stoul;
    var l := ReadFields(UNSET, fs).value;
    forall tag | tag in OBLIGATORY ensures Knows(l, tag) {
      FieldsKnow(UNSET, fs, tag);
    }
    assert "readOnly" in OBLIGATORY && "isNumeric" in OBLIGATORY && "typeId" in OBLIGATORY && "nameSpace" in OBLIGATORY;
    DistinctTags();
  }

  // ----- the server address -----

  // The addresses in the general sections, from front to back.
  function FieldAddresses(fs: seq<Field>): seq<Option<string>> {
    if fs == [] then []
    else (if fs[0].Field? && fs[0].tag == "serverAddress" then [fs[0].text] else []) + FieldAddresses(fs[1..])
  }

  function Addresses(ss: seq<Section>): seq<Option<string>> {
    if ss == [] then []
    else (if ss[0].Section? && ss[0].tag == "general" then FieldAddresses(ss[0].fields) else []) + Addresses(ss[1..])
  }

  // Nothing is left undefined exactly when all of them have a text, and then the last one counts.
  function LastAddress(address: string, found: seq<Option<string>>): Result<string> {
    if exists i :: 0 <= i < |found| && found[i].None? then Undefined
    else if found == [] then Ok(address)
    else Ok(found[|found| - 1].value)
  }

  lemma {:induction false} FieldAddressLast(address: string, fs: seq<Field>)
    ensures ReadAddressFields(address, fs) == LastAddress(address, FieldAddresses(fs))
    decreases |fs|
  {
    if fs == [] {
    } else {
      var rest := FieldAddresses(fs[1..]);
      if fs[0].Field? && fs[0].tag == "serverAddress" {
        assert FieldAddresses(fs) == [fs[0].text] + rest;
        if fs[0].text.None? {
          assert FieldAddresses(fs)[0].None?;
        } else {
          FieldAddressLast(fs[0].text.value, fs[1..]);
          JoinLast(address, [fs[0].text], rest);
        }
      } else {
        assert FieldAddresses(fs) == rest;
        FieldAddressLast(address, fs[1..]);
      }
    }
  }

  lemma JoinLast(address: string, a: seq<Option<string>>, b: seq<Option<string>>)
    ensures LastAddress(address, a + b) == match LastAddress(address, a)
                                           case Ok(x) => LastAddress(x, b)
                                           case other => other
  {
    if i :| 0 <= i < |a| && a[i].None? {
      assert (a + b)[i].None?;
    } else if i :| 0 <= i < |b| && b[i].None? {
      assert (a + b)[|a| + i].None?;
    }
  }

  lemma {:induction false} AddressLast(address: string, ss: seq<Section>)
    ensures ReadAddress(address, ss) == LastAddress(address, Addresses(ss))
    decreases |ss|
  {
    hide LastAddress, FieldAddresses;
    if ss == [] {
      NoAddress(address);
    } else if ss[0].Section? && ss[0].tag == "general" {
      FieldAddressLast(address, ss[0].fields);
      JoinLast(address, FieldAddresses(ss[0].fields), Addresses(ss[1..]));
      if ReadAddressFields(address, ss[0].fields).Ok? {
        AddressLast(ReadAddressFields(address, ss[0].fields).value, ss[1..]);
      }
    } else {
      assert Addresses(ss) == Addresses(ss[1..]);
      AddressLast(address, ss[1..]);
    }
  }

  lemma NoAddress(address: string)
    ensures LastAddress(address, []) == Ok(address)
  {
  }
}
