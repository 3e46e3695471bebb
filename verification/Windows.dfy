// Windows onto the array of a server variable, on values.
module Windows {
  import opened Common
  import opened Converter

  const TWO_64: nat := 0x1_0000_0000_0000_0000

  datatype Window = Window(offset: nat, words: nat)

  // What getRegisterAccessor makes of the requested words and offset, in 64-bit arithmetic.
  function WindowFor(words: nat, offset: nat, length: nat): Option<Window> {
    if (words + offset) % TWO_64 > length || (words == 0 && offset > 0) then None
    else Some(Window(offset, if words == 0 then length else words))
  }

  predicate InBounds(w: Window, length: nat) { w.offset + w.words <= length }

  // An accepted window lies in the register exactly when the sum did not wrap; no good window is refused.
  lemma AcceptedWindows(words: nat, offset: nat, length: nat)
    requires words < TWO_64 && offset < TWO_64 && length < TWO_64
    ensures WindowFor(words, offset, length).Some? ==>
              (InBounds(WindowFor(words, offset, length).value, length) <==> words + offset < TWO_64)
    ensures InBounds(Window(offset, words), length) && words > 0 ==> WindowFor(words, offset, length) == Some(Window(offset, words))
  {
  }

  // A request without a number of words is one for the whole register, and is refused at any other offset than 0. Reading
  // through it gives every element, converted.
  lemma WholeRegister(server: seq<int>, offset: nat, register: Range)
    requires |server| < TWO_64
    ensures WindowFor(0, offset, |server|) == if offset == 0 then Some(Window(0, |server|)) else None
    ensures offset == 0 ==>
              var out := ReadWindow(server, WindowFor(0, offset, |server|).value, register);
              |out| == |server| && forall i :: 0 <= i < |server| ==> out[i] == Convert(server[i] as real, register)
  {
    assert server[0..0 + |server|] == server;
  }

  lemma WrappedWindowAccepted(length: nat)
    requires 1 <= length < TWO_64
    ensures WindowFor(2, TWO_64 - 1, length) == Some(Window(TWO_64 - 1, 2))
    ensures !InBounds(Window(TWO_64 - 1, 2), length)
  {
  }

  // ----- reading -----

  function ConvertAll(words: seq<int>, r: Range): (out: seq<int>)
    ensures |out| == |words|
    ensures forall i :: 0 <= i < |words| ==> out[i] == Convert(words[i] as real, r)
  {
    seq(|words|, i requires 0 <= i < |words| => Convert(words[i] as real, r))
  }

  function ReadWindow(block: seq<int>, w: Window, register: Range): seq<int>
    requires InBounds(w, |block|)
  {
    ConvertAll(block[w.offset..w.offset + w.words], register)
  }

  // The part of the array an index range "min:max" selects; max is cut at the end of the array.
  function Block(server: seq<int>, range: Option<Range>): Option<seq<int>> {
    match range
    case None => Some(server)
    case Some(r) =>
      if 0 <= r.lo <= r.hi && r.lo < |server| then Some(server[r.lo..if r.hi < |server| then r.hi + 1 else |server|])
      else None
  }

  // A range selects something exactly when it is proper and its first element exists: the elements from min on, as many
  // as there are up to max. Without a range everything is selected.
  lemma BlockSelects(server: seq<int>, r: Range)
    ensures Block(server, None) == Some(server)
    ensures Block(server, Some(r)).Some? <==> 0 <= r.lo <= r.hi && r.lo < |server|
    ensures Block(server, Some(r)).Some? ==>
              var block := Block(server, Some(r)).value;
              && r.lo + |block| == (if r.hi < |server| then r.hi + 1 else |server|)
              && (forall k :: 0 <= k < |block| ==> block[k] == server[r.lo + k])
  {
  }

  // The length the catalogue records for a register with an index range.
  function LengthOf(r: Range): int { r.hi - r.lo + 1 }

  // Every accepted window over a range inside the array reads in bounds, and word i is the element at
  // min + offset + i.
  lemma WindowOverRange(server: seq<int>, r: Range, words: nat, offset: nat, register: Range)
    requires 0 <= r.lo <= r.hi < |server| < TWO_64 && words + offset < TWO_64
    requires WindowFor(words, offset, LengthOf(r)).Some?
    ensures var w, block := WindowFor(words, offset, LengthOf(r)).value, Block(server, Some(r)).value;
            && InBounds(w, |block|)
            && forall i :: 0 <= i < w.words ==>
                 ReadWindow(block, w, register)[i] == Convert(server[r.lo + w.offset + i] as real, register)
  {
    hide Convert;
    AcceptedWindows(words, offset, LengthOf(r));
  }

  // For a range that reaches beyond the array the window reads in bounds exactly when what it names exists.
  lemma WindowOverCutRange(server: seq<int>, r: Range, w: Window)
    requires 0 <= r.lo <= r.hi && r.lo < |server| && InBounds(w, LengthOf(r))
    ensures InBounds(w, |Block(server, Some(r)).value|) <==> r.lo + w.offset + w.words <= |server|
  {
  }

  // ----- writing -----

  function Splice(s: seq<int>, offset: nat, words: seq<int>): (t: seq<int>)
    requires offset + |words| <= |s|
    ensures |t| == |s|
  {
    s[..offset] + words + s[offset + |words|..]
  }

  function Written(server: seq<int>, w: Window, words: seq<int>, ua: Range): seq<int>
    requires InBounds(w, |server|) && |words| == w.words
  {
    Splice(server, w.offset, ConvertAll(words, ua))
  }

  lemma SpliceAt(s: seq<int>, offset: nat, words: seq<int>, k: nat)
    requires offset + |words| <= |s| && k < |s|
    ensures Splice(s, offset, words)[k] == if offset <= k < offset + |words| then words[k - offset] else s[k]
  {
  }

  // A later read through any window sees the words written, clamped into both types, and the rest as before.
  lemma ReadAfterWrite(server: seq<int>, w: Window, words: seq<int>, ua: Range, v: Window, register: Range, i: nat)
    requires InBounds(w, |server|) && |words| == w.words && InBounds(v, |server|) && i < v.words
    requires Proper(ua) && Proper(register) && Proper(Overlap(ua, register))
    ensures InBounds(v, |Written(server, w, words, ua)|)
    ensures ReadWindow(Written(server, w, words, ua), v, register)[i]
         == if w.offset <= v.offset + i < w.offset + w.words then Clamp(words[v.offset + i - w.offset], Overlap(ua, register))
            else Convert(server[v.offset + i] as real, register)
  {
    SpliceAt(server, w.offset, ConvertAll(words, ua), v.offset + i);
    if w.offset <= v.offset + i < w.offset + w.words {
      WriteThenRead(words[v.offset + i - w.offset], ua, register);
    }
  }

  predicate Disjoint(a: Window, b: Window) {
    a.offset + a.words <= b.offset || b.offset + b.words <= a.offset
  }

  predicate AgreeAt(k: int, a: nat, x: seq<int>, b: nat, y: seq<int>) {
    a <= k < a + |x| && b <= k < b + |y| ==> x[k - a] == y[k - b]
  }

  ghost predicate AgreeOnOverlap(a: nat, x: seq<int>, b: nat, y: seq<int>) {
    forall k: int :: AgreeAt(k, a, x, b, y)
  }

  // Two writes commute exactly when they agree where their windows overlap.
  lemma SplicesCommuteExactly(s: seq<int>, a: nat, x: seq<int>, b: nat, y: seq<int>)
    requires a + |x| <= |s| && b + |y| <= |s|
    ensures Splice(Splice(s, a, x), b, y) == Splice(Splice(s, b, y), a, x) <==> AgreeOnOverlap(a, x, b, y)
  {
    var l, r := Splice(Splice(s, a, x), b, y), Splice(Splice(s, b, y), a, x);
    forall k: nat | k < |s|
      ensures l[k] == if b <= k < b + |y| then y[k - b] else if a <= k < a + |x| then x[k - a] else s[k]
      ensures r[k] == if a <= k < a + |x| then x[k - a] else if b <= k < b + |y| then y[k - b] else s[k]
    {
      SpliceAt(s, a, x, k);
      SpliceAt(s, b, y, k);
      SpliceAt(Splice(s, a, x), b, y, k);
      SpliceAt(Splice(s, b, y), a, x, k);
    }
    if AgreeOnOverlap(a, x, b, y) {
      forall k | 0 <= k < |s| ensures l[k] == r[k] {
        assert AgreeAt(k, a, x, b, y);
      }
    } else {
      var k: int :| !AgreeAt(k, a, x, b, y);
      assert l[k] != r[k];
    }
  }

  lemma DisjointWritesCommute(server: seq<int>, a: Window, x: seq<int>, b: Window, y: seq<int>, ua: Range)
    requires InBounds(a, |server|) && |x| == a.words && InBounds(b, |server|) && |y| == b.words && Disjoint(a, b)
    ensures Written(Written(server, a, x, ua), b, y, ua) == Written(Written(server, b, y, ua), a, x, ua)
  {
  }

  // The client lock is released between the read and the write of one partial write. If another write comes in
  // between, it survives exactly when it changes neither the length nor anything outside the window. The same decides
  // whether an older block gives the write that the present array would have given.
  lemma LostUpdateExactly(s: seq<int>, other: seq<int>, offset: nat, words: seq<int>)
    requires offset + |words| <= |s| && offset + |words| <= |other|
    ensures Splice(s, offset, words) == Splice(other, offset, words)
       <==> |s| == |other| && forall k :: 0 <= k < |s| && !(offset <= k < offset + |words|) ==> s[k] == other[k]
  {
    var l, r := Splice(s, offset, words), Splice(other, offset, words);
    if |s| == |other| {
      forall k: nat | k < |s|
        ensures l[k] == if offset <= k < offset + |words| then words[k - offset] else s[k]
        ensures r[k] == if offset <= k < offset + |words| then words[k - offset] else other[k]
      {
        SpliceAt(s, offset, words, k);
        SpliceAt(other, offset, words, k);
      }
    }
  }

  // With an index range the block read is written back as the whole value. That is the intended splice exactly
  // when the range covers the whole array.
  lemma WriteOverRangeExactly(server: seq<int>, r: Range, offset: nat, words: seq<int>)
    requires 0 <= r.lo <= r.hi < |server| && offset + |words| <= LengthOf(r)
    ensures Splice(Block(server, Some(r)).value, offset, words) == Splice(server, r.lo + offset, words)
       <==> r == Range(0, |server| - 1)
  {
  }
}
