// Synchronous transfers between a server variable and the buffer of an accessor.
module AccessorTransfer {
  import opened Common
  import opened Converter
  import opened Windows

  datatype Outcome = Transferred | NotWritable | Failed

  // What the server answers to a write.
  datatype WriteStatus = Good | BadNotWritable | Bad

  // An array variable of the server.
  class Variable {
    var value: seq<int>

    constructor (initial: seq<int>)
      ensures value == initial
    {
      value := initial;
    }
  }

  class Accessor {
    const variable: Variable
    const window: Window
    const isPartial: bool
    const indexRange: Option<Range>
    const uaType: Range
    const userType: Range
    const buffer: array<int>
    // data: the value block, whether there is one, and the status stored beside it.
    var block: array<int>
    var hasValue: bool
    var statusGood: bool

    // arrayLength is the length the catalogue recorded.
    constructor (variable: Variable, window: Window, arrayLength: nat, indexRange: Option<Range>, uaType: Range, userType: Range)
      ensures Valid() && !hasValue && fresh(buffer) && fresh(block)
      ensures this.variable == variable && this.window == window && this.indexRange == indexRange
      ensures this.uaType == uaType && this.userType == userType && isPartial == (arrayLength != window.words)
    {
      this.variable, this.window, this.indexRange := variable, window, indexRange;
      this.uaType, this.userType := uaType, userType;
      buffer := new int[window.words];
      block := new int[0];
      hasValue, statusGood := false, true;
      isPartial := arrayLength != window.words;
    }

    ghost predicate Valid()
      reads this
    {
      && buffer.Length == window.words
      && buffer != block
      && (indexRange.None? ==> hasValue || statusGood)
    }

    // The block is long enough for the window.
    ghost predicate Fits()
      reads this
    {
      InBounds(window, block.Length)
    }

    method Prepare()
      modifies this
      ensures !hasValue && block == old(block) && (statusGood == (old(hasValue) || old(statusGood)))
    {
      if hasValue {
        hasValue := false;
        statusGood := true;
      }
    }

    method CopyVariant(source: seq<int>)
      requires Valid()
      modifies this
      ensures Valid() && fresh(block)
      ensures hasValue <==> Block(source, indexRange).Some?
      ensures hasValue ==> block[..] == Block(source, indexRange).value
    {
      Prepare();
      var part := Block(source, indexRange);
      if part.Some? {
        block := new int[|part.value|](i requires 0 <= i < |part.value| => part.value[i]);
      } else {
        block := new int[0];
      }
      if indexRange.Some? {
        statusGood := part.Some?;
      }
      if statusGood {
        hasValue := true;
      }
    }

    method DoReadTransferSynchronously(readGood: bool) returns (outcome: Outcome)
      requires Valid()
      modifies this
      ensures Valid() && outcome == (if readGood then Transferred else Failed)
      ensures readGood ==> fresh(block) && (hasValue <==> Block(variable.value, indexRange).Some?)
      ensures readGood && hasValue ==> block[..] == Block(variable.value, indexRange).value
      ensures !readGood ==> block == old(block) && hasValue == old(hasValue) && statusGood == old(statusGood)
    {
      if !readGood {
        return Failed;
      }
      CopyVariant(variable.value);
      return Transferred;
    }

    // Whether the buffer was filled; if not, the data validity is set to faulty.
    method DoPostRead() returns (ok: bool)
      requires Valid() && (hasValue ==> Fits())
      modifies buffer
      ensures ok == hasValue
      ensures ok ==> buffer[..] == ReadWindow(block[..], window, userType)
      ensures !ok ==> buffer[..] == old(buffer[..])
    {
      if !hasValue {
        return false;
      }
      var i := 0;
      while i < window.words
        invariant 0 <= i <= window.words
        invariant forall j :: 0 <= j < i ==> buffer[j] == Convert(block[window.offset + j] as real, userType)
      {
        var value := block[window.offset + i];
        buffer[i] := Convert(value as real, userType);
        i := i + 1;
      }
      return true;
    }

    // The words of the buffer, converted, over the window of the block.
    method PutWords()
      requires Valid() && Fits()
      modifies block
      ensures block[..] == Written(old(block[..]), window, buffer[..], uaType)
    {
      var i := 0;
      while i < window.words
        invariant 0 <= i <= window.words
        invariant forall j :: 0 <= j < i ==> block[window.offset + j] == Convert(buffer[j] as real, uaType)
        invariant forall k :: 0 <= k < block.Length && !(window.offset <= k < window.offset + i) ==> block[k] == old(block[k])
      {
        block[window.offset + i] := Convert(buffer[i] as real, uaType);
        i := i + 1;
      }
      ghost var expected := Written(old(block[..]), window, buffer[..], uaType);
      forall k | 0 <= k < block.Length ensures block[k] == expected[k] {
        SpliceAt(old(block[..]), window.offset, ConvertAll(buffer[..], uaType), k);
      }
    }

    // What the last synchronous read or write left in the block when the array length has not changed since.
    ghost predicate UpToDate()
      reads this, variable
    {
      && InBounds(window, |variable.value|)
      && (!isPartial ==> window == Window(0, |variable.value|) && (hasValue ==> block.Length == |variable.value|))
    }

    predicate ReadsFirst()
      reads this
    {
      isPartial || !hasValue
    }

    // The block the words of the window are put into: what is read first, or what an earlier transfer left.
    ghost function Base(): Option<seq<int>>
      reads this, block, variable
    {
      if ReadsFirst() then Block(variable.value, indexRange) else Some(block[..])
    }

    // A successful write replaces the server array by the base with the window put in, whatever the index range and the
    // present length of the array. Without an index range and with an unchanged length this changes the array at exactly
    // the positions of the window; LostUpdateExactly and WriteOverRangeExactly say when it does otherwise.
    method DoWriteTransfer(readGood: bool, status: WriteStatus) returns (outcome: Outcome)
      requires Valid() && ((ReadsFirst() && !readGood) || (Base().Some? && InBounds(window, |Base().value|)))
      modifies this, block, variable
      ensures Valid() && (block == old(block) || fresh(block))
      ensures outcome.Transferred? ==>
                && old(Base()).Some? && InBounds(window, |old(Base()).value|)
                && variable.value == Written(old(Base()).value, window, buffer[..], uaType)
      ensures indexRange.None? && old(UpToDate()) ==>
                UpToDate() && (outcome.Transferred? ==> variable.value == Written(old(variable.value), window, buffer[..], uaType))
      ensures !outcome.Transferred? ==> variable.value == old(variable.value)
      ensures outcome == if old(ReadsFirst()) && !readGood then Failed
                         else match status case Good => Transferred case BadNotWritable => NotWritable case Bad => Failed
    {
      ghost var words := buffer[..];
      ghost var base := Base();
      if isPartial || !hasValue {
        var read := DoReadTransferSynchronously(readGood);
        if read.Failed? {
          return Failed;
        }
      }
      assert buffer[..] == words && Some(block[..]) == base;
      PutWords();
      if status.Good? {
        variable.value := block[..];
        return Transferred;
      }
      return if status.BadNotWritable? then NotWritable else Failed;
    }
  }

  // A write through one accessor is seen by a read through another one with any window; ReadAfterWrite says what
  // the words read are.
  method WriteThenReadElsewhere(writer: Accessor, reader: Accessor)
    requires writer.Valid() && reader.Valid() && writer.UpToDate() && writer.indexRange.None? && reader.indexRange.None?
    requires writer != reader && writer.variable == reader.variable && InBounds(reader.window, |reader.variable.value|)
    requires writer.buffer != reader.buffer && writer.buffer != writer.block
    requires reader.buffer != writer.block && reader.block != writer.block
    modifies writer, writer.block, writer.variable, reader, reader.buffer
    ensures reader.buffer[..] == ReadWindow(Written(old(writer.variable.value), writer.window, old(writer.buffer[..]), writer.uaType),
                                            reader.window, reader.userType)
  {
    var written := writer.DoWriteTransfer(true, Good);
    var read := reader.DoReadTransferSynchronously(true);
    var filled := reader.DoPostRead();
  }
}
