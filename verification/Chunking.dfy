/**
  The document chunker: `splitBlock` cuts a long block into overlapping windows that end at a
  space where one is near, and `chunkExtraction` groups the resulting units greedily.
 */
module Chunking {
  import opened Prelude
  import opened Text

  datatype BlockKind = Heading | Paragraph | Table | Footnote | Page

  datatype Block = Block(
    id: string,
    kind: BlockKind,
    pageNumber: Option<int>,
    sectionPath: Option<string>,
    text: string,
    startOffset: nat,
    endOffset: nat)

  /** A block's offsets span its text; `finalizeExtraction` builds every block this way. */
  ghost predicate WellPlaced(block: Block)
  {
    block.endOffset == block.startOffset + |block.text|
  }

  ghost predicate OrderedBlocks(blocks: seq<Block>)
  {
    && (forall i :: 0 <= i < |blocks| ==> WellPlaced(blocks[i]))
    && (forall i, j :: 0 <= i < j < |blocks| ==> blocks[i].endOffset <= blocks[j].startOffset)
  }

  datatype Unit = Unit(text: string, startOffset: nat, endOffset: nat, block: Block)

  datatype Options = Options(maxChars: int, overlapChars: int, maxChunks: int)

  datatype OptionsInput =
    OptionsInput(maxChars: Option<int>, overlapChars: Option<int>, maxChunks: Option<int>)

  datatype ChunkError = NotReady | InvalidMaxChars | InvalidOverlap | InvalidMaxChunks | TooManyChunks

  predicate ValidOptions(o: Options)
  {
    100 <= o.maxChars <= MAX_SAFE_INTEGER &&
    0 <= o.overlapChars <= MAX_SAFE_INTEGER && 2 * o.overlapChars < o.maxChars &&
    1 <= o.maxChunks <= MAX_SAFE_INTEGER
  }

  ghost function GivenOr(value: Option<int>, fallback: int): int
  {
    match value case Some(n) => n case None => fallback
  }

  function Default(value: Option<int>, fallback: int): int
  {
    if value.Some? then value.value else fallback
  }

  /** `validateOptions`: the first option out of range is reported. */
  function ValidateOptions(input: OptionsInput): (r: Result<Options, ChunkError>)
    ensures r.Success? ==> ValidOptions(r.value)
    ensures r.Success? ==> r.value == Options(GivenOr(input.maxChars, 4000), GivenOr(input.overlapChars, 300), GivenOr(input.maxChunks, 2000))
    ensures r.Success? <==>
      && 100 <= GivenOr(input.maxChars, 4000) <= MAX_SAFE_INTEGER && 1 <= GivenOr(input.maxChunks, 2000) <= MAX_SAFE_INTEGER
      && 0 <= 2 * GivenOr(input.overlapChars, 300) < GivenOr(input.maxChars, 4000) && GivenOr(input.overlapChars, 300) <= MAX_SAFE_INTEGER
  {
    var maxChars := Default(input.maxChars, 4000);
    var overlapChars := Default(input.overlapChars, 300);
    var maxChunks := Default(input.maxChunks, 2000);
    if maxChars < 100 || maxChars > MAX_SAFE_INTEGER then Failure(InvalidMaxChars)
    else if overlapChars < 0 || overlapChars > MAX_SAFE_INTEGER ||
            overlapChars as real >= maxChars as real / 2.0 then Failure(InvalidOverlap)
    else if maxChunks < 1 || maxChunks > MAX_SAFE_INTEGER then Failure(InvalidMaxChunks)
    else Success(Options(maxChars, overlapChars, maxChunks))
  }

  // ---------------------------------------------------------------- splitting

  datatype Window = Window(start: nat, end: nat)

  /** What a window keeps once white space at both ends is cut off. */
  function TrimSegment(value: string, w: Window): (r: Option<Window>)
    requires w.start <= w.end <= |value|
    ensures r.None? ==> forall p :: w.start <= p < w.end ==> IsSpace(value[p])
    ensures r.Some? ==>
      && w.start <= r.value.start < r.value.end <= w.end
      && !IsSpace(value[r.value.start]) && !IsSpace(value[r.value.end - 1])
      && (forall p :: w.start <= p < r.value.start ==> IsSpace(value[p]))
      && (forall p :: r.value.end <= p < w.end ==> IsSpace(value[p]))
  {
    var raw := value[w.start..w.end];
    var start := w.start + LeadingSpaces(raw);
    var end: int := w.end - TrailingSpaces(raw);
    SliceAt(value, w);
    if end <= start then None
    else Some(Window(start, end))
  }

  lemma SliceAt(value: string, w: Window)
    requires w.start <= w.end <= |value|
    ensures forall p :: w.start <= p < w.end ==> value[p] == value[w.start..w.end][p - w.start]
  {
  }

  /** `lastIndexOf(" ", from)`: the greatest index not above `from` that holds a space, or -1. */
  function LastSpace(value: string, from: int): (r: int)
    requires -1 <= from < |value|
    ensures -1 <= r <= from
    ensures r >= 0 ==> value[r] == ' '
    ensures forall p :: r < p <= from ==> value[p] != ' '
    decreases from + 1
  {
    if from == -1 || value[from] == ' ' then from else LastSpace(value, from - 1)
  }

  /**
    The raw windows of a block: they start at 0, are at most `maxChars` long and more than half of it
    unless they reach the end, and each begins exactly `overlapChars` before the end of its
    predecessor while the ends strictly increase.
   */
  ghost predicate Chained(windows: seq<Window>, length: nat, maxChars: nat, overlapChars: nat)
  {
    && (windows != [] ==> windows[0].start == 0)
    && (forall i :: 0 <= i < |windows| ==>
          && windows[i].start < windows[i].end <= windows[i].start + maxChars && windows[i].end <= length
          && (windows[i].end < length ==> windows[i].end > windows[i].start + maxChars / 2))
    && (forall i, j :: 0 <= i && j == i + 1 && j < |windows| ==>
          windows[j].start == windows[i].end - overlapChars && windows[i].end < windows[j].end)
  }

  ghost predicate Complete(windows: seq<Window>, length: nat)
  {
    windows != [] && windows[|windows| - 1].end == length
  }

  /** A window that does not reach the end of the text is more than half full. */
  lemma ChainedSnoc(windows: seq<Window>, w: Window, length: nat, maxChars: nat, overlapChars: nat)
    requires Chained(windows, length, maxChars, overlapChars) && 2 * overlapChars < maxChars
    requires w.start < w.end <= w.start + maxChars && w.end <= length
    requires w.end < length ==> w.end > w.start + maxChars / 2
    requires if windows == [] then w.start == 0 else
      w.start == windows[|windows| - 1].end - overlapChars && windows[|windows| - 1].end < length
    ensures Chained(windows + [w], length, maxChars, overlapChars)
  {
  }

  /**
    Both the starts and the ends strictly increase: the end of a window less the overlap is at least
    its start plus one, so the fallback `start + 1` never decides where the next one starts.
   */
  lemma {:induction false} ChainedMonotone(windows: seq<Window>, length: nat, maxChars: nat, overlapChars: nat, i: nat, j: nat)
    requires Chained(windows, length, maxChars, overlapChars) && 2 * overlapChars < maxChars && i < j < |windows|
    ensures windows[i].start < windows[j].start && windows[i].end < windows[j].end
    ensures windows[i].start + 1 <= windows[i].end - overlapChars
    decreases j
  {
    if i < j - 1 {
      ChainedMonotone(windows, length, maxChars, overlapChars, i, j - 1);
    }
    assert windows[j].start == windows[j - 1].end - overlapChars && windows[j - 1].end < windows[j].end <= length;
  }

  ghost predicate SpaceIn(text: string, low: nat, high: nat)
  {
    exists p :: low < p <= high && p < |text| && text[p] == ' '
  }

  /**
    Where `splitBlock` ends a window: at the end of the text if that is within reach, and otherwise at
    the last space of the window's second half, or after `maxChars` characters if there is none.
   */
  ghost predicate EndsRight(text: string, w: Window, maxChars: nat)
  {
    if w.start + maxChars >= |text| then w.end == |text|
    else if SpaceIn(text, w.start + maxChars / 2, w.start + maxChars) then
      && w.start + maxChars / 2 < w.end <= w.start + maxChars && text[w.end] == ' '
      && !SpaceIn(text, w.end, w.start + maxChars)
    else w.end == w.start + maxChars
  }

  lemma EndsOnce(text: string, w: Window, v: Window, maxChars: nat)
    requires EndsRight(text, w, maxChars) && EndsRight(text, v, maxChars) && w.start == v.start
    ensures w == v
  {
  }

  /** Every window ends where the search for a boundary puts it. */
  ghost predicate Sought(windows: seq<Window>, text: string, maxChars: nat)
  {
    forall i :: 0 <= i < |windows| ==> windows[i].start < |text| && EndsRight(text, windows[i], maxChars)
  }

  lemma SoughtSnoc(windows: seq<Window>, w: Window, text: string, maxChars: nat)
    requires Sought(windows, text, maxChars) && w.start < |text| && EndsRight(text, w, maxChars)
    ensures Sought(windows + [w], text, maxChars)
  {
    hide EndsRight;
  }

  /** The chain and the search leave no choice: two splits of a text agree window by window. */
  lemma {:induction false} WindowsAgree(v: seq<Window>, w: seq<Window>, text: string, maxChars: nat, overlapChars: nat, i: nat)
    requires Chained(v, |text|, maxChars, overlapChars) && Sought(v, text, maxChars) && i < |v|
    requires Chained(w, |text|, maxChars, overlapChars) && Sought(w, text, maxChars) && i < |w|
    ensures v[i] == w[i]
  {
    hide EndsRight;
    if i > 0 {
      WindowsAgree(v, w, text, maxChars, overlapChars, i - 1);
      assert v[i].start == v[i - 1].end - overlapChars && w[i].start == w[i - 1].end - overlapChars;
    }
    EndsOnce(text, v[i], w[i], maxChars);
  }

  lemma WindowsDetermined(v: seq<Window>, w: seq<Window>, text: string, maxChars: nat, overlapChars: nat)
    requires 2 * overlapChars < maxChars
    requires Chained(v, |text|, maxChars, overlapChars) && Sought(v, text, maxChars) && Complete(v, |text|)
    requires Chained(w, |text|, maxChars, overlapChars) && Sought(w, text, maxChars) && Complete(w, |text|)
    ensures v == w
  {
    var n := if |v| < |w| then |v| else |w|;
    forall i | 0 <= i < n ensures v[i] == w[i] {
      WindowsAgree(v, w, text, maxChars, overlapChars, i);
    }
    hide Sought;
    if |v| < |w| {
      ChainedMonotone(w, |text|, maxChars, overlapChars, |v| - 1, |w| - 1);
    } else if |w| < |v| {
      ChainedMonotone(v, |text|, maxChars, overlapChars, |w| - 1, |v| - 1);
    }
  }

  /** Chained windows leave no gap: every position before the last end is in some window. */
  lemma {:induction false} ChainedCover(windows: seq<Window>, length: nat, maxChars: nat, overlapChars: nat, p: nat)
    requires Chained(windows, length, maxChars, overlapChars)
    requires windows != [] && p < windows[|windows| - 1].end
    ensures exists k :: 0 <= k < |windows| && windows[k].start <= p < windows[k].end
    decreases |windows|
  {
    var last := |windows| - 1;
    if p < windows[last].start {
      assert last > 0 && windows[last].start == windows[last - 1].end - overlapChars;
      ChainedCover(windows[..last], length, maxChars, overlapChars, p);
      var k :| 0 <= k < last && windows[..last][k].start <= p < windows[..last][k].end;
      assert windows[k] == windows[..last][k];
    } else {
      assert windows[last].start <= p < windows[last].end;
    }
  }

  // ---------------------------------------------------------------- units of a split block

  ghost predicate ExactSlice(u: Unit, block: Block)
  {
    && u.block == block
    && block.startOffset <= u.startOffset <= u.endOffset <= block.startOffset + |block.text|
    && u.text == block.text[u.startOffset - block.startOffset..u.endOffset - block.startOffset]
  }

  ghost predicate Covers(u: Unit, position: int)
  {
    u.startOffset <= position < u.endOffset
  }

  ghost predicate Covered(units: seq<Unit>, position: int)
  {
    exists i :: 0 <= i < |units| && Covers(units[i], position)
  }

  ghost predicate OrderedUnits(units: seq<Unit>)
  {
    forall i, j :: 0 <= i < j < |units| ==>
      units[i].startOffset <= units[j].startOffset && units[i].endOffset <= units[j].endOffset
  }

  predicate Fits(windows: seq<Window>, length: nat)
  {
    forall i :: 0 <= i < |windows| ==> windows[i].start <= windows[i].end <= length
  }

  /** The unit is the window without the white space at its ends. */
  ghost predicate IsTrimmed(u: Unit, block: Block, w: Window)
    requires w.end <= |block.text|
  {
    var first, last := u.startOffset - block.startOffset, u.endOffset - block.startOffset - 1;
    && w.start <= first <= last < w.end && u.block == block && u.text == block.text[first..last + 1]
    && !IsSpace(block.text[first]) && !IsSpace(block.text[last])
    && (forall p :: w.start <= p < first ==> IsSpace(block.text[p]))
    && (forall p :: last < p < w.end ==> IsSpace(block.text[p]))
  }

  function UnitAt(block: Block, w: Window): (units: seq<Unit>)
    requires w.start <= w.end <= |block.text|
    ensures |units| <= 1
  {
    match TrimSegment(block.text, w)
    case None => []
    case Some(t) =>
      [Unit(block.text[t.start..t.end], block.startOffset + t.start, block.startOffset + t.end, block)]
  }

  ghost predicate IsBlank(text: string, w: Window)
    requires w.end <= |text|
  {
    forall p :: w.start <= p < w.end ==> IsSpace(text[p])
  }

  /** A blank window gives no unit, any other the window without the white space at its ends. */
  lemma UnitAtTrims(block: Block, w: Window)
    requires w.start <= w.end <= |block.text|
    ensures if IsBlank(block.text, w) then UnitAt(block, w) == [] else UnitAt(block, w) != [] && IsTrimmed(UnitAt(block, w)[0], block, w)
  {
    hide IsSpace, TrimSegment, IsTrimmed, IsBlank;
    BlankIff(block.text, w);
    if TrimSegment(block.text, w).Some? {
      TrimmedUnit(block, w);
    }
  }

  lemma BlankIff(text: string, w: Window)
    requires w.start <= w.end <= |text|
    ensures IsBlank(text, w) <==> TrimSegment(text, w).None?
  {
    hide IsSpace, TrimSegment;
    if TrimSegment(text, w).Some? {
      assert !IsSpace(text[TrimSegment(text, w).value.start]);
    }
  }

  lemma TrimmedUnit(block: Block, w: Window)
    requires w.start <= w.end <= |block.text| && TrimSegment(block.text, w).Some?
    ensures UnitAt(block, w) != [] && IsTrimmed(UnitAt(block, w)[0], block, w)
  {
    hide IsSpace, TrimSegment;
    var t := TrimSegment(block.text, w).value;
    var u := Unit(block.text[t.start..t.end], block.startOffset + t.start, block.startOffset + t.end, block);
    assert UnitAt(block, w) == [u];
    hide UnitAt;
    assert IsTrimmed(u, block, w);
  }

  function UnitsOf(block: Block, windows: seq<Window>): (units: seq<Unit>)
    requires Fits(windows, |block.text|)
  {
    if windows == [] then []
    else UnitsOf(block, windows[..|windows| - 1]) + UnitAt(block, windows[|windows| - 1])
  }

  lemma UnitsSnoc(block: Block, windows: seq<Window>, w: Window)
    requires Fits(windows, |block.text|) && w.start <= w.end <= |block.text|
    ensures Fits(windows + [w], |block.text|)
    ensures UnitsOf(block, windows + [w]) == UnitsOf(block, windows) + UnitAt(block, w)
  {
    hide UnitAt;
    assert (windows + [w])[..|windows + [w]| - 1] == windows;
  }

  /** Each unit comes from a window: it is that window without the white space around it. */
  lemma {:induction false} UnitOrigin(block: Block, windows: seq<Window>, i: nat) returns (k: nat)
    requires Fits(windows, |block.text|) && i < |UnitsOf(block, windows)|
    ensures k < |windows| && UnitAt(block, windows[k]) == [UnitsOf(block, windows)[i]]
    ensures i + 1 == |UnitsOf(block, windows)| || k + 1 < |windows|
    decreases |windows|
  {
    hide UnitAt;
    var rest := windows[..|windows| - 1];
    if i < |UnitsOf(block, rest)| {
      k := UnitOrigin(block, rest, i);
    } else {
      k := |windows| - 1;
    }
  }

  /** Moving a window to the right never moves its trimmed part to the left. */
  lemma TrimMonotone(block: Block, v: Window, w: Window)
    requires v.start <= v.end <= |block.text| && w.start <= w.end <= |block.text|
    requires v.start <= w.start && v.end <= w.end
    requires UnitAt(block, v) != [] && UnitAt(block, w) != []
    ensures UnitAt(block, v)[0].startOffset <= UnitAt(block, w)[0].startOffset
    ensures UnitAt(block, v)[0].endOffset <= UnitAt(block, w)[0].endOffset
  {
    hide IsSpace, TrimSegment;
    var tv, tw := TrimSegment(block.text, v).value, TrimSegment(block.text, w).value;
    assert !IsSpace(block.text[tw.start]) && !IsSpace(block.text[tv.end - 1]);
  }

  lemma ChainedPrefix(windows: seq<Window>, length: nat, maxChars: nat, overlapChars: nat, n: nat)
    requires Chained(windows, length, maxChars, overlapChars) && n <= |windows|
    ensures Chained(windows[..n], length, maxChars, overlapChars) && Fits(windows, length)
  {
  }

  lemma {:induction false} UnitsOrdered(block: Block, windows: seq<Window>, maxChars: nat, overlapChars: nat)
    requires Chained(windows, |block.text|, maxChars, overlapChars) && 2 * overlapChars < maxChars
    ensures Fits(windows, |block.text|) && OrderedUnits(UnitsOf(block, windows))
    decreases |windows|
  {
    hide UnitAt;
    ChainedPrefix(windows, |block.text|, maxChars, overlapChars, |windows|);
    if windows != [] {
      var n := |windows| - 1;
      var rest := windows[..n];
      ChainedPrefix(windows, |block.text|, maxChars, overlapChars, n);
      hide Chained;
      UnitsOrdered(block, rest, maxChars, overlapChars);
      var before := UnitsOf(block, rest);
      forall i | 0 <= i < |before| && UnitAt(block, windows[n]) != []
        ensures before[i].startOffset <= UnitAt(block, windows[n])[0].startOffset
        ensures before[i].endOffset <= UnitAt(block, windows[n])[0].endOffset
      {
        var k := UnitOrigin(block, rest, i);
        ChainedMonotone(windows, |block.text|, maxChars, overlapChars, k, n);
        TrimMonotone(block, windows[k], windows[n]);
      }
    }
  }

  lemma UnitAtExact(block: Block, w: Window, u: Unit, maxChars: nat)
    requires w.start <= w.end <= |block.text| && w.end - w.start <= maxChars && UnitAt(block, w) == [u]
    ensures ExactSlice(u, block) && 0 < |u.text| <= maxChars
  {
    hide TrimSegment, IsSpace;
    assert UnitAt(block, w)[0] == u;
  }

  lemma UnitsExact(block: Block, windows: seq<Window>, maxChars: nat, overlapChars: nat)
    requires Chained(windows, |block.text|, maxChars, overlapChars) && Fits(windows, |block.text|)
    ensures forall i :: 0 <= i < |UnitsOf(block, windows)| ==>
      ExactSlice(UnitsOf(block, windows)[i], block) && 0 < |UnitsOf(block, windows)[i].text| <= maxChars
  {
    forall i | 0 <= i < |UnitsOf(block, windows)|
      ensures ExactSlice(UnitsOf(block, windows)[i], block) && 0 < |UnitsOf(block, windows)[i].text| <= maxChars
    {
      hide UnitAt, UnitsOf, ExactSlice;
      var k := UnitOrigin(block, windows, i);
      UnitAtExact(block, windows[k], UnitsOf(block, windows)[i], maxChars);
    }
  }

  lemma WindowUnitCovers(block: Block, w: Window, p: nat)
    requires w.start <= p < w.end <= |block.text| && !IsSpace(block.text[p])
    ensures UnitAt(block, w) != [] && Covers(UnitAt(block, w)[0], block.startOffset + p)
  {
    hide IsSpace;
  }

  /** A position inside window `k` that is not white space lies in that window's unit. */
  lemma {:induction false} WindowCovers(block: Block, windows: seq<Window>, k: nat, p: nat)
    requires Fits(windows, |block.text|) && k < |windows|
    requires windows[k].start <= p < windows[k].end && !IsSpace(block.text[p])
    ensures Covered(UnitsOf(block, windows), block.startOffset + p)
    decreases |windows|
  {
    hide IsSpace, Covers, UnitAt;
    var n := |windows| - 1;
    var rest := UnitsOf(block, windows[..n]);
    if k < n {
      WindowCovers(block, windows[..n], k, p);
      var i :| 0 <= i < |rest| && Covers(rest[i], block.startOffset + p);
      assert UnitsOf(block, windows)[i] == rest[i];
    } else {
      WindowUnitCovers(block, windows[n], p);
      assert UnitsOf(block, windows)[|rest|] == UnitAt(block, windows[n])[0];
    }
  }

  ghost predicate CoversBlock(units: seq<Unit>, block: Block)
  {
    forall p :: 0 <= p < |block.text| && !IsSpace(block.text[p]) ==> Covered(units, block.startOffset + p)
  }

  lemma SplitCovers(block: Block, windows: seq<Window>, maxChars: nat, overlapChars: nat)
    requires Chained(windows, |block.text|, maxChars, overlapChars) && Fits(windows, |block.text|)
    requires Complete(windows, |block.text|)
    ensures CoversBlock(UnitsOf(block, windows), block)
  {
    forall p | 0 <= p < |block.text| && !IsSpace(block.text[p])
      ensures Covered(UnitsOf(block, windows), block.startOffset + p)
    {
      ChainedCover(windows, |block.text|, maxChars, overlapChars, p);
      var k :| 0 <= k < |windows| && windows[k].start <= p < windows[k].end;
      WindowCovers(block, windows, k, p);
    }
  }

  lemma WholeBlock(block: Block)
    requires WellPlaced(block)
    ensures var u := Unit(block.text, block.startOffset, block.endOffset, block);
      ExactSlice(u, block) && CoversBlock([u], block)
  {
    var u := Unit(block.text, block.startOffset, block.endOffset, block);
    assert block.text == block.text[0..|block.text|];
    assert forall p :: Covers([u][0], p) ==> Covered([u], p);
  }

  /** The first half of the loop body: the end of the window, moved back to a boundary. */
  method WindowEnd(text: string, start: nat, maxChars: nat) returns (end: nat)
    requires start < |text| && maxChars >= 2
    ensures EndsRight(text, Window(start, end), maxChars)
    ensures start < end <= start + maxChars && end <= |text| && (end < |text| ==> end > start + maxChars / 2)
  {
    end := if start + maxChars < |text| then start + maxChars else |text|;
    if end < |text| {
      var boundary := LastSpace(text, end);
      if boundary > start + maxChars / 2 {
        end := boundary;
      }
    }
  }

  /** The units are those of the windows, and the windows are the ones the chain and the search determine. */
  ghost predicate IsSplit(block: Block, maxChars: nat, overlapChars: nat, windows: seq<Window>, units: seq<Unit>)
  {
    if |block.text| <= maxChars then units == [Unit(block.text, block.startOffset, block.endOffset, block)]
    else
      && Chained(windows, |block.text|, maxChars, overlapChars) && Complete(windows, |block.text|)
      && Sought(windows, block.text, maxChars) && Fits(windows, |block.text|) && units == UnitsOf(block, windows)
  }

  /** A block has one split. */
  lemma SplitDetermined(block: Block, maxChars: nat, overlapChars: nat, v: seq<Window>, w: seq<Window>, a: seq<Unit>, b: seq<Unit>)
    requires 2 * overlapChars < maxChars
    requires IsSplit(block, maxChars, overlapChars, v, a) && IsSplit(block, maxChars, overlapChars, w, b)
    ensures a == b
  {
    if |block.text| > maxChars {
      WindowsDetermined(v, w, block.text, maxChars, overlapChars);
    }
  }

  lemma HalfFull(start: nat, end: nat, maxChars: nat, overlapChars: nat)
    requires end > start + maxChars / 2 && 2 * overlapChars < maxChars
    ensures start + 1 <= end - overlapChars
  {
  }

  /** What holds of the windows cut so far. */
  ghost predicate IsCut(block: Block, maxChars: nat, overlapChars: nat, windows: seq<Window>, units: seq<Unit>)
  {
    && Chained(windows, |block.text|, maxChars, overlapChars) && Sought(windows, block.text, maxChars)
    && Fits(windows, |block.text|) && units == UnitsOf(block, windows)
  }

  lemma CutNext(block: Block, maxChars: nat, overlapChars: nat, windows: seq<Window>, units: seq<Unit>, w: Window)
    requires IsCut(block, maxChars, overlapChars, windows, units) && 2 * overlapChars < maxChars
    requires w.start < w.end <= w.start + maxChars && w.end <= |block.text| && EndsRight(block.text, w, maxChars)
    requires w.end < |block.text| ==> w.end > w.start + maxChars / 2
    requires if windows == [] then w.start == 0 else
      w.start == windows[|windows| - 1].end - overlapChars && windows[|windows| - 1].end < |block.text|
    ensures IsCut(block, maxChars, overlapChars, windows + [w], units + UnitAt(block, w))
  {
    hide Chained, Sought, EndsRight, UnitAt, UnitsOf;
    ChainedSnoc(windows, w, |block.text|, maxChars, overlapChars);
    SoughtSnoc(windows, w, block.text, maxChars);
    UnitsSnoc(block, windows, w);
  }

  /**
    `splitBlock`. For every block and all valid options: the loop ends; the raw windows overlap by
    exactly `overlapChars` and their ends strictly increase, so the `start + 1` fallback never decides
    the next start; every unit is the exact block slice at its offsets and at most `maxChars` long;
    units keep the reading order; and every position that is not white space lies in some unit.
   */
  method SplitBlock(block: Block, maxChars: nat, overlapChars: nat)
    returns (units: seq<Unit>, ghost windows: seq<Window>)
    requires maxChars >= 100 && 2 * overlapChars < maxChars
    requires WellPlaced(block)
    ensures IsSplit(block, maxChars, overlapChars, windows, units)
    ensures |block.text| > maxChars ==> forall i :: 0 <= i < |units| ==> units[i].text != []
    ensures forall i :: 0 <= i < |units| ==> ExactSlice(units[i], block) && |units[i].text| <= maxChars
    ensures OrderedUnits(units)
    ensures CoversBlock(units, block)
  {
    assert IsCut(block, maxChars, overlapChars, [], []);
    hide IsSpace, EndsRight, IsCut, CoversBlock, ExactSlice, UnitAt;
    windows := [];
    if |block.text| <= maxChars {
      units := [Unit(block.text, block.startOffset, block.endOffset, block)];
      WholeBlock(block);
      return;
    }
    hide IsSplit, OrderedUnits;
    units := [];
    var start := 0;
    while start < |block.text|
      invariant 0 <= start < |block.text| && IsCut(block, maxChars, overlapChars, windows, units)
      invariant if windows == [] then start == 0 else
        start == windows[|windows| - 1].end - overlapChars && windows[|windows| - 1].end < |block.text|
      decreases |block.text| - start
    {
      var end := WindowEnd(block.text, start, maxChars);
      CutNext(block, maxChars, overlapChars, windows, units, Window(start, end));
      windows := windows + [Window(start, end)];
      units := units + UnitAt(block, Window(start, end));
      if end >= |block.text| {
        break;
      }
      HalfFull(start, end, maxChars, overlapChars);
      start := if start + 1 < end - overlapChars then end - overlapChars else start + 1;
    }
    SplitResult(block, windows, units, maxChars, overlapChars);
  }

  lemma SplitResult(block: Block, windows: seq<Window>, units: seq<Unit>, maxChars: nat, overlapChars: nat)
    requires 2 * overlapChars < maxChars < |block.text| && WellPlaced(block)
    requires IsCut(block, maxChars, overlapChars, windows, units) && Complete(windows, |block.text|)
    ensures IsSplit(block, maxChars, overlapChars, windows, units)
    ensures forall i :: 0 <= i < |units| ==> ExactSlice(units[i], block) && 0 < |units[i].text| <= maxChars
    ensures OrderedUnits(units) && CoversBlock(units, block)
  {
    hide Chained, UnitsOf, ExactSlice, OrderedUnits, CoversBlock;
    UnitsExact(block, windows, maxChars, overlapChars);
    UnitsOrdered(block, windows, maxChars, overlapChars);
    SplitCovers(block, windows, maxChars, overlapChars);
  }

  lemma SliceOfSlice(s: string, a: nat, b: nat, c: nat, d: nat)
    requires a <= b <= |s| && c <= d <= b - a
    ensures s[a..b][c..d] == s[a + c..a + d]
  {
    assert forall i :: 0 <= i < d - c ==> s[a..b][c..d][i] == s[a + c..a + d][i];
  }

  /** With the block placed in a document, a unit's text is the document slice at the unit's offsets. */
  lemma UnitIsDocumentSlice(document: string, block: Block, u: Unit)
    requires WellPlaced(block) && block.endOffset <= |document|
    requires block.text == document[block.startOffset..block.endOffset]
    requires ExactSlice(u, block)
    ensures u.endOffset <= |document| && u.text == document[u.startOffset..u.endOffset]
  {
    SliceOfSlice(document, block.startOffset, block.endOffset, u.startOffset - block.startOffset, u.endOffset - block.startOffset);
  }

  // ---------------------------------------------------------------- grouping

  predicate SameStructure(left: Unit, right: Unit)
  {
    && left.block.pageNumber == right.block.pageNumber
    && left.block.sectionPath == right.block.sectionPath
    && right.block.kind != Heading
  }

  function Texts(units: seq<Unit>): (texts: seq<string>)
    ensures |texts| == |units|
  {
    seq(|units|, i requires 0 <= i < |units| => units[i].text)
  }

  function ChunkText(group: seq<Unit>): (text: string)
  {
    Join(Texts(group), "\n\n")
  }

  lemma ChunkTextSnoc(group: seq<Unit>, u: Unit)
    ensures |ChunkText(group + [u])| == (if group == [] then 0 else |ChunkText(group)| + 2) + |u.text|
  {
    assert Texts(group + [u]) == Texts(group) + [u.text];
    if group != [] {
      JoinSnoc(Texts(group), u.text, "\n\n");
    }
  }

  /** A prefix of a group joins to no more text than the whole group. */
  lemma {:induction false} ChunkTextPrefix(group: seq<Unit>, n: nat)
    requires n <= |group|
    ensures |ChunkText(group[..n])| <= |ChunkText(group)|
    decreases |group| - n
  {
    if n < |group| {
      ChunkTextPrefix(group, n + 1);
      assert group[..n + 1] == group[..n] + [group[n]];
      ChunkTextSnoc(group[..n], group[n]);
    } else {
      assert group[..n] == group;
    }
  }

  ghost predicate Cohesive(group: seq<Unit>, maxChars: nat)
  {
    && group != []
    && |ChunkText(group)| <= maxChars
    && forall i, j :: 0 <= i && j == i + 1 && j < |group| ==> SameStructure(group[i], group[j])
  }

  /** The first unit of `next` could not have been added to `group`. */
  ghost predicate Closed(group: seq<Unit>, next: seq<Unit>, maxChars: nat)
    requires group != [] && next != []
  {
    || |ChunkText(group + [next[0]])| > maxChars
    || group[|group| - 1].block.pageNumber != next[0].block.pageNumber
    || group[|group| - 1].block.sectionPath != next[0].block.sectionPath
    || next[0].block.kind == Heading
  }

  ghost predicate AllCohesive(groups: seq<seq<Unit>>, maxChars: nat)
  {
    forall i :: 0 <= i < |groups| ==> Cohesive(groups[i], maxChars)
  }

  ghost predicate AllClosed(groups: seq<seq<Unit>>, maxChars: nat)
    requires AllCohesive(groups, maxChars)
  {
    forall i, j :: 0 <= i && j == i + 1 && j < |groups| ==> Closed(groups[i], groups[j], maxChars)
  }

  /**
    The declarative meaning of the grouping loop: an ordered partition of the units into cohesive
    groups, none of which could take the next unit.
   */
  ghost predicate GreedyPartition(groups: seq<seq<Unit>>, units: seq<Unit>, maxChars: nat)
  {
    Flatten(groups) == units && AllCohesive(groups, maxChars) && AllClosed(groups, maxChars)
  }

  /** What the grouping loop has built of the first `n` units: closed groups, and the one it is filling. */
  ghost predicate IsGrouping(grouped: seq<seq<Unit>>, current: seq<Unit>, units: seq<Unit>, n: nat, maxChars: nat)
    requires n <= |units|
  {
    && Flatten(grouped) + current == units[..n] && AllCohesive(grouped, maxChars) && AllClosed(grouped, maxChars)
    && if current == [] then n == 0 && grouped == [] else Cohesive(current, maxChars) && ClosedBefore(grouped, current, maxChars)
  }

  lemma OpenGroup(units: seq<Unit>, maxChars: nat)
    requires units != [] && |units[0].text| <= maxChars
    ensures IsGrouping([], [units[0]], units, 1, maxChars)
  {
    SingleCohesive(units[0], maxChars);
    hide Cohesive;
    assert Flatten<Unit>([]) == [] && units[..1] == [] + [units[0]];
  }

  lemma GrowGroup(grouped: seq<seq<Unit>>, current: seq<Unit>, units: seq<Unit>, n: nat, maxChars: nat)
    requires n < |units| && IsGrouping(grouped, current, units, n, maxChars) && current != []
    requires |ChunkText(current + [units[n]])| <= maxChars && SameStructure(current[|current| - 1], units[n])
    ensures IsGrouping(grouped, current + [units[n]], units, n + 1, maxChars)
  {
    hide SameStructure, ChunkText, Cohesive, AllCohesive, AllClosed, ClosedBefore;
    ExtendGroup(current, units[n], maxChars);
    ClosedByFirst(grouped, current, units[n], maxChars);
    assert units[..n + 1] == units[..n] + [units[n]];
    AppendAssociative(Flatten(grouped), current, [units[n]]);
  }

  lemma NextGroup(grouped: seq<seq<Unit>>, current: seq<Unit>, units: seq<Unit>, n: nat, maxChars: nat)
    requires n < |units| && IsGrouping(grouped, current, units, n, maxChars) && current != [] && |units[n].text| <= maxChars
    requires |ChunkText(current + [units[n]])| > maxChars || !SameStructure(current[|current| - 1], units[n])
    ensures IsGrouping(grouped + [current], [units[n]], units, n + 1, maxChars)
  {
    hide SameStructure, ChunkText, Cohesive, AllCohesive, AllClosed, ClosedBefore;
    SingleCohesive(units[n], maxChars);
    FlattenSnoc(grouped, current);
    CloseGroup(grouped, current, units[n], maxChars);
    assert units[..n + 1] == units[..n] + [units[n]];
  }

  lemma LastGroup(grouped: seq<seq<Unit>>, current: seq<Unit>, units: seq<Unit>, maxChars: nat)
    requires IsGrouping(grouped, current, units, |units|, maxChars)
    ensures GreedyPartition(if current == [] then grouped else grouped + [current], units, maxChars)
  {
    assert units[..|units|] == units;
    if current != [] {
      hide Cohesive, AllCohesive, AllClosed, ClosedBefore;
      FlattenSnoc(grouped, current);
      CloseLast(grouped, current, maxChars);
    }
  }

  /** The grouping loop of `chunkExtraction`; `currentChars` always equals the joined length. */
  method GroupUnits(units: seq<Unit>, maxChars: nat) returns (grouped: seq<seq<Unit>>)
    requires forall i :: 0 <= i < |units| ==> |units[i].text| <= maxChars
    ensures GreedyPartition(grouped, units, maxChars)
  {
    grouped := [];
    var current: seq<Unit> := [];
    var currentChars := 0;
    assert IsGrouping(grouped, current, units, 0, maxChars);
    hide SameStructure, ChunkText, IsGrouping, GreedyPartition;
    for i := 0 to |units|
      invariant IsGrouping(grouped, current, units, i, maxChars)
      invariant if current == [] then i == 0 && grouped == [] && currentChars == 0 else currentChars == |ChunkText(current)|
      invariant i > 0 ==> current != []
    {
      var unit := units[i];
      var separatorChars := if |current| > 0 then 2 else 0;
      var fits := currentChars + separatorChars + |unit.text| <= maxChars;
      ChunkTextSnoc(current, unit);
      ChunkTextSnoc([], unit);
      assert [] + [unit] == [unit];
      if |current| > 0 && (!fits || !SameStructure(current[|current| - 1], unit)) {
        NextGroup(grouped, current, units, i, maxChars);
        grouped := grouped + [current];
        current := [];
        currentChars := 0;
      } else if |current| > 0 {
        GrowGroup(grouped, current, units, i, maxChars);
      } else {
        OpenGroup(units, maxChars);
      }
      current := current + [unit];
      currentChars := currentChars + (if |current| > 1 then 2 else 0) + |unit.text|;
    }
    LastGroup(grouped, current, units, maxChars);
    if |current| > 0 {
      grouped := grouped + [current];
    }
  }

  lemma SingleCohesive(unit: Unit, maxChars: nat)
    requires |unit.text| <= maxChars
    ensures Cohesive([unit], maxChars) && [] + [unit] == [unit]
  {
    ChunkTextSnoc([], unit);
    assert [] + [unit] == [unit];
  }

  lemma ExtendGroup(group: seq<Unit>, unit: Unit, maxChars: nat)
    requires Cohesive(group, maxChars) && |ChunkText(group + [unit])| <= maxChars
    requires SameStructure(group[|group| - 1], unit)
    ensures Cohesive(group + [unit], maxChars)
  {
    hide SameStructure, ChunkText;
  }

  ghost predicate ClosedBefore(grouped: seq<seq<Unit>>, current: seq<Unit>, maxChars: nat)
    requires AllCohesive(grouped, maxChars) && current != []
  {
    grouped == [] || Closed(grouped[|grouped| - 1], current, maxChars)
  }

  lemma CloseLast(grouped: seq<seq<Unit>>, current: seq<Unit>, maxChars: nat)
    requires AllCohesive(grouped, maxChars) && AllClosed(grouped, maxChars)
    requires Cohesive(current, maxChars) && ClosedBefore(grouped, current, maxChars)
    ensures AllCohesive(grouped + [current], maxChars) && AllClosed(grouped + [current], maxChars)
  {
    assert forall i :: 0 <= i < |grouped| ==> grouped[i] != [];
    hide Cohesive, Closed;
  }

  lemma CloseGroup(grouped: seq<seq<Unit>>, current: seq<Unit>, unit: Unit, maxChars: nat)
    requires AllCohesive(grouped, maxChars) && AllClosed(grouped, maxChars)
    requires Cohesive(current, maxChars) && ClosedBefore(grouped, current, maxChars)
    requires |ChunkText(current + [unit])| > maxChars || !SameStructure(current[|current| - 1], unit)
    ensures AllCohesive(grouped + [current], maxChars) && AllClosed(grouped + [current], maxChars)
    ensures ClosedBefore(grouped + [current], [] + [unit], maxChars)
  {
    hide ChunkText;
    CloseLast(grouped, current, maxChars);
    assert Closed(current, [] + [unit], maxChars);
  }

  lemma ClosedByFirst(grouped: seq<seq<Unit>>, current: seq<Unit>, unit: Unit, maxChars: nat)
    requires AllCohesive(grouped, maxChars)
    requires current != [] && ClosedBefore(grouped, current, maxChars)
    ensures ClosedBefore(grouped, current + [unit], maxChars)
  {
    hide SameStructure, ChunkText;
    assert (current + [unit])[0] == current[0];
  }

  /**
    The greedy partition is unique, so `GreedyPartition` says everything about the grouping: any
    other way of cutting the units with these properties is the one the loop returns.
   */
  lemma {:induction false} GreedyPartitionUnique(left: seq<seq<Unit>>, right: seq<seq<Unit>>, units: seq<Unit>, maxChars: nat)
    requires GreedyPartition(left, units, maxChars) && GreedyPartition(right, units, maxChars)
    ensures left == right
    decreases |left|
  {
    hide SameStructure, ChunkText;
    if left == [] || right == [] {
      EmptyPartition(left, units, maxChars);
      EmptyPartition(right, units, maxChars);
    } else {
      FirstGroupLongest(left, right, units, maxChars);
      FirstGroupLongest(right, left, units, maxChars);
      var n := |left[0]|;
      assert units[..n] == left[0] && units[..n] == right[0];
      assert Flatten(left[1..]) == units[n..] && Flatten(right[1..]) == units[n..];
      TailPartition(left, units, maxChars);
      TailPartition(right, units, maxChars);
      GreedyPartitionUnique(left[1..], right[1..], units[n..], maxChars);
      assert left == [left[0]] + left[1..] && right == [right[0]] + right[1..];
    }
  }

  lemma EmptyPartition(groups: seq<seq<Unit>>, units: seq<Unit>, maxChars: nat)
    requires GreedyPartition(groups, units, maxChars)
    ensures groups == [] <==> units == []
  {
    if groups != [] {
      assert Cohesive(groups[0], maxChars);
    }
  }

  lemma TailPartition(groups: seq<seq<Unit>>, units: seq<Unit>, maxChars: nat)
    requires GreedyPartition(groups, units, maxChars) && groups != []
    ensures |groups[0]| <= |units| && GreedyPartition(groups[1..], units[|groups[0]|..], maxChars)
  {
    hide Cohesive, Closed;
    assert groups == [groups[0]] + groups[1..];
    assert Flatten(groups[1..]) == units[|groups[0]|..];
    assert forall i :: 0 <= i < |groups[1..]| ==> groups[1..][i] == groups[i + 1];
  }

  /** No partition with these properties has a longer first group than another. */
  lemma FirstGroupLongest(left: seq<seq<Unit>>, right: seq<seq<Unit>>, units: seq<Unit>, maxChars: nat)
    requires GreedyPartition(left, units, maxChars) && GreedyPartition(right, units, maxChars)
    requires left != [] && right != []
    ensures |right[0]| <= |left[0]|
  {
    hide ChunkText;
    var g, h := left[0], right[0];
    var n := |g|;
    if n < |h| {
      assert units[..n] == g && units[..|h|] == h;
      assert Flatten(left[1..]) == units[n..];
      assert left[1..] != [];
      assert Cohesive(left[1], maxChars);
      assert left[1..][0] == left[1];
      assert units[n] == left[1][0] == h[n];
      assert Closed(left[0], left[1], maxChars);
      assert g + [h[n]] == h[..n + 1];
      ChunkTextPrefix(h, n + 1);
      assert false;
    }
  }

  /** Every unit of a chunk has the chunk's page and section, and a heading can only open a chunk. */
  lemma {:induction false} ChunkStructure(group: seq<Unit>, maxChars: nat, i: nat)
    requires Cohesive(group, maxChars) && i < |group|
    ensures group[i].block.pageNumber == group[0].block.pageNumber
    ensures group[i].block.sectionPath == group[0].block.sectionPath
    ensures group[i].block.kind == Heading ==> i == 0
  {
    if i > 0 {
      ChunkStructure(group, maxChars, i - 1);
      assert SameStructure(group[i - 1], group[i]);
    }
  }

  // ---------------------------------------------------------------- chunks and anchors

  datatype Part = Str(s: string) | Num(n: int) | Undefined

  /** SHA-256 of a text, and the truncated digest of a list of parts: both left abstract. */
  datatype Hashing = Hashing(sha256: string -> string, digest: seq<Part> -> string)

  datatype Extraction = Extraction(ready: bool, documentHash: string, extractorVersion: string, blocks: seq<Block>)

  datatype Input =
    Input(sourceId: string, documentId: string, extractionId: string, extraction: Extraction, options: OptionsInput)

  datatype Chunk = Chunk(
    id: string, ordinal: nat, extractionId: string, text: string, startOffset: nat, endOffset: nat,
    startBlockId: string, endBlockId: string, pageNumber: Option<int>, sectionPath: Option<string>,
    charCount: nat, contentHash: string)

  datatype Anchor = Anchor(
    id: string, sourceId: string, documentId: string, extractionId: string, chunkId: string,
    pageNumber: Option<int>, sectionPath: Option<string>, startOffset: nat, endOffset: nat, contentHash: string)

  datatype Chunked = Chunked(chunks: seq<Chunk>, anchors: seq<Anchor>)

  function MakeChunk(h: Hashing, input: Input, group: seq<Unit>, ordinal: nat): (c: Chunk)
    requires group != []
  {
    var first, last := group[0], group[|group| - 1];
    var text := ChunkText(group);
    var contentHash := h.sha256(text);
    var id := "chunk-" + h.digest([Str(input.extraction.documentHash), Str(input.extraction.extractorVersion),
                                   Str("structure-char-v1"), Num(ordinal), Num(first.startOffset),
                                   Num(last.endOffset), Str(contentHash)]);
    Chunk(id, ordinal, input.extractionId, text, first.startOffset, last.endOffset, first.block.id, last.block.id,
          first.block.pageNumber, first.block.sectionPath, |text|, contentHash)
  }

  function MakeAnchor(h: Hashing, input: Input, chunk: Chunk): (a: Anchor)
  {
    var id := "anchor-" + h.digest([Str(input.sourceId), Str(input.documentId), Str(input.extractionId),
                                    Str(chunk.id), Num(chunk.startOffset), Num(chunk.endOffset), Str(chunk.contentHash)]);
    Anchor(id, input.sourceId, input.documentId, input.extractionId, chunk.id, chunk.pageNumber,
           chunk.sectionPath, chunk.startOffset, chunk.endOffset, chunk.contentHash)
  }

  /** The columns of a chunk: where its first and last unit come from, their joined text, and a digest of what it is. */
  lemma ChunkColumns(h: Hashing, input: Input, group: seq<Unit>, ordinal: nat)
    requires group != []
    ensures var c, first, last := MakeChunk(h, input, group, ordinal), group[0], group[|group| - 1];
      && c.ordinal == ordinal && c.extractionId == input.extractionId && c.text == ChunkText(group) && c.charCount == |c.text|
      && c.startOffset == first.startOffset && c.endOffset == last.endOffset
      && c.startBlockId == first.block.id && c.endBlockId == last.block.id
      && c.pageNumber == first.block.pageNumber && c.sectionPath == first.block.sectionPath && c.contentHash == h.sha256(c.text)
      && c.id == "chunk-" + h.digest([Str(input.extraction.documentHash), Str(input.extraction.extractorVersion), Str("structure-char-v1"),
                                      Num(c.ordinal), Num(c.startOffset), Num(c.endOffset), Str(c.contentHash)])
  {
  }

  /** An anchor repeats what its chunk says and adds where the document comes from. */
  lemma AnchorColumns(h: Hashing, input: Input, c: Chunk)
    ensures var a := MakeAnchor(h, input, c);
      && a.chunkId == c.id && a.sourceId == input.sourceId && a.documentId == input.documentId && a.extractionId == input.extractionId
      && a.pageNumber == c.pageNumber && a.sectionPath == c.sectionPath && a.startOffset == c.startOffset && a.endOffset == c.endOffset
      && a.contentHash == c.contentHash
      && a.id == "anchor-" + h.digest([Str(a.sourceId), Str(a.documentId), Str(a.extractionId), Str(a.chunkId), Num(a.startOffset),
                                       Num(a.endOffset), Str(a.contentHash)])
  {
  }

  /** What the concatenated units of all blocks satisfy. */
  ghost predicate UnitsOfDocument(units: seq<Unit>, blocks: seq<Block>, maxChars: nat)
  {
    && (forall i :: 0 <= i < |units| ==>
          units[i].block in blocks && ExactSlice(units[i], units[i].block) && |units[i].text| <= maxChars)
    && OrderedUnits(units)
    && (forall b :: b in blocks ==> CoversBlock(units, b))
  }

  ghost predicate Bounded(units: seq<Unit>, low: nat, high: nat)
  {
    forall i :: 0 <= i < |units| ==> low <= units[i].startOffset && units[i].endOffset <= high
  }

  lemma CoversMore(units: seq<Unit>, more: seq<Unit>, block: Block)
    ensures CoversBlock(units, block) ==> CoversBlock(units + more, block)
    ensures CoversBlock(more, block) ==> CoversBlock(units + more, block)
  {
    hide Covers, IsSpace;
    forall p | Covered(units, p)
      ensures Covered(units + more, p)
    {
      var i :| 0 <= i < |units| && Covers(units[i], p);
      assert (units + more)[i] == units[i];
    }
    forall p | Covered(more, p)
      ensures Covered(units + more, p)
    {
      var i :| 0 <= i < |more| && Covers(more[i], p);
      assert (units + more)[|units| + i] == more[i];
    }
  }

  lemma AppendUnits(units: seq<Unit>, blocks: seq<Block>, more: seq<Unit>, block: Block, maxChars: nat)
    requires UnitsOfDocument(units, blocks, maxChars) && OrderedUnits(more) && CoversBlock(more, block)
    requires forall i :: 0 <= i < |more| ==> ExactSlice(more[i], block) && |more[i].text| <= maxChars
    requires WellPlaced(block) && Bounded(units, 0, block.startOffset)
    ensures UnitsOfDocument(units + more, blocks + [block], maxChars)
    ensures Bounded(units + more, 0, block.endOffset)
  {
    hide CoversBlock;
    forall i, j | 0 <= i < |units| <= j < |units + more|
      ensures (units + more)[i].startOffset <= (units + more)[j].startOffset
      ensures (units + more)[i].endOffset <= (units + more)[j].endOffset
    {
      assert ExactSlice(more[j - |units|], block) && ExactSlice(units[i], units[i].block);
      assert units[i].endOffset <= block.startOffset;
    }
    forall b | b in blocks + [block]
      ensures CoversBlock(units + more, b)
    {
      CoversMore(units, more, b);
    }
  }

  /** The units are the splits of the blocks, one after the other. */
  ghost predicate IsSplitOf(blocks: seq<Block>, maxChars: nat, overlapChars: nat, parts: seq<seq<Unit>>, units: seq<Unit>)
  {
    && |parts| == |blocks| && Flatten(parts) == units
    && forall i :: 0 <= i < |parts| ==> HasSplit(blocks[i], maxChars, overlapChars, parts[i])
  }

  ghost predicate HasSplit(block: Block, maxChars: nat, overlapChars: nat, units: seq<Unit>)
  {
    exists windows :: IsSplit(block, maxChars, overlapChars, windows, units)
  }

  lemma SplitSnoc(blocks: seq<Block>, maxChars: nat, overlapChars: nat, parts: seq<seq<Unit>>, units: seq<Unit>,
                  block: Block, windows: seq<Window>, more: seq<Unit>)
    requires IsSplitOf(blocks, maxChars, overlapChars, parts, units) && IsSplit(block, maxChars, overlapChars, windows, more)
    ensures IsSplitOf(blocks + [block], maxChars, overlapChars, parts + [more], units + more)
  {
    assert HasSplit(block, maxChars, overlapChars, more);
    hide IsSplit, HasSplit, Flatten;
    FlattenSnoc(parts, more);
    var allBlocks, allParts := blocks + [block], parts + [more];
    forall i | 0 <= i < |allParts| ensures HasSplit(allBlocks[i], maxChars, overlapChars, allParts[i]) {
      if i < |parts| {
        assert allParts[i] == parts[i] && allBlocks[i] == blocks[i];
      }
    }
  }

  /** A document has one split, so the units below are the ones `splitBlock` yields. */
  lemma DocumentSplitDetermined(blocks: seq<Block>, maxChars: nat, overlapChars: nat,
                                p: seq<seq<Unit>>, q: seq<seq<Unit>>, a: seq<Unit>, b: seq<Unit>)
    requires 2 * overlapChars < maxChars
    requires IsSplitOf(blocks, maxChars, overlapChars, p, a) && IsSplitOf(blocks, maxChars, overlapChars, q, b)
    ensures a == b
  {
    hide IsSplit, Flatten;
    forall i | 0 <= i < |p| ensures p[i] == q[i] {
      var v :| IsSplit(blocks[i], maxChars, overlapChars, v, p[i]);
      var w :| IsSplit(blocks[i], maxChars, overlapChars, w, q[i]);
      SplitDetermined(blocks[i], maxChars, overlapChars, v, w, p[i], q[i]);
    }
    assert p == q;
  }

  /** What holds once the first `n` blocks are split. */
  ghost predicate SplitSoFar(blocks: seq<Block>, n: nat, maxChars: nat, overlapChars: nat, parts: seq<seq<Unit>>, units: seq<Unit>)
    requires n <= |blocks|
  {
    && UnitsOfDocument(units, blocks[..n], maxChars)
    && IsSplitOf(blocks[..n], maxChars, overlapChars, parts, units)
    && (n < |blocks| ==> Bounded(units, 0, blocks[n].startOffset))
  }

  lemma SplitNext(blocks: seq<Block>, n: nat, maxChars: nat, overlapChars: nat, parts: seq<seq<Unit>>, units: seq<Unit>,
                  windows: seq<Window>, more: seq<Unit>)
    requires n < |blocks| && OrderedBlocks(blocks) && SplitSoFar(blocks, n, maxChars, overlapChars, parts, units)
    requires IsSplit(blocks[n], maxChars, overlapChars, windows, more) && OrderedUnits(more) && CoversBlock(more, blocks[n])
    requires forall i :: 0 <= i < |more| ==> ExactSlice(more[i], blocks[n]) && |more[i].text| <= maxChars
    ensures SplitSoFar(blocks, n + 1, maxChars, overlapChars, parts + [more], units + more)
  {
    hide CoversBlock, ExactSlice, OrderedUnits, UnitsOfDocument, IsSplitOf, IsSplit;
    AppendUnits(units, blocks[..n], more, blocks[n], maxChars);
    SplitSnoc(blocks[..n], maxChars, overlapChars, parts, units, blocks[n], windows, more);
    assert blocks[..n + 1] == blocks[..n] + [blocks[n]];
  }

  method SplitBlocks(blocks: seq<Block>, maxChars: nat, overlapChars: nat) returns (units: seq<Unit>, ghost parts: seq<seq<Unit>>)
    requires maxChars >= 100 && 2 * overlapChars < maxChars && OrderedBlocks(blocks)
    ensures UnitsOfDocument(units, blocks, maxChars)
    ensures IsSplitOf(blocks, maxChars, overlapChars, parts, units)
  {
    units, parts := [], [];
    assert blocks[..0] == [] && blocks[..|blocks|] == blocks;
    assert SplitSoFar(blocks, 0, maxChars, overlapChars, parts, units);
    hide CoversBlock, ExactSlice, OrderedUnits, UnitsOfDocument, IsSplitOf, IsSplit;
    for i := 0 to |blocks|
      invariant SplitSoFar(blocks, i, maxChars, overlapChars, parts, units)
    {
      hide SplitSoFar;
      var more, windows := SplitBlock(blocks[i], maxChars, overlapChars);
      SplitNext(blocks, i, maxChars, overlapChars, parts, units, windows, more);
      units, parts := units + more, parts + [more];
    }
  }

  ghost predicate Spans(c: Chunk, position: int)
  {
    c.startOffset <= position < c.endOffset
  }

  /** Every position of the block that is not white space is inside the offsets of some chunk. */
  ghost predicate ChunksCoverBlock(chunks: seq<Chunk>, block: Block)
  {
    forall p :: 0 <= p < |block.text| && !IsSpace(block.text[p]) ==>
      exists i :: 0 <= i < |chunks| && Spans(chunks[i], block.startOffset + p)
  }

  ghost predicate ChunksOf(h: Hashing, input: Input, groups: seq<seq<Unit>>, chunks: seq<Chunk>)
  {
    |chunks| == |groups| &&
    forall i :: 0 <= i < |groups| ==> groups[i] != [] && chunks[i] == MakeChunk(h, input, groups[i], i)
  }

  /** The position of a flattened unit inside its group. */
  lemma {:induction false} Locate(groups: seq<seq<Unit>>, k: nat) returns (g: nat, i: nat, offset: nat)
    requires k < |Flatten(groups)|
    ensures g < |groups| && i < |groups[g]| && Flatten(groups)[k] == groups[g][i]
    ensures offset + i == k && offset + |groups[g]| <= |Flatten(groups)|
    ensures Flatten(groups)[offset..offset + |groups[g]|] == groups[g]
  {
    if k < |groups[0]| {
      g, i, offset := 0, k, 0;
    } else {
      var g', i', offset' := Locate(groups[1..], k - |groups[0]|);
      g, i, offset := g' + 1, i', offset' + |groups[0]|;
    }
  }

  lemma ChunksCover(h: Hashing, input: Input, groups: seq<seq<Unit>>, chunks: seq<Chunk>, units: seq<Unit>, block: Block)
    requires Flatten(groups) == units && OrderedUnits(units) && ChunksOf(h, input, groups, chunks)
    requires CoversBlock(units, block)
    ensures ChunksCoverBlock(chunks, block)
  {
    hide ChunkText, IsSpace, Flatten;
    forall p | 0 <= p < |block.text| && !IsSpace(block.text[p])
      ensures exists i :: 0 <= i < |chunks| && Spans(chunks[i], block.startOffset + p)
    {
      assert Covered(units, block.startOffset + p);
      var k :| 0 <= k < |units| && Covers(units[k], block.startOffset + p);
      var g, i, offset := Locate(groups, k);
      var n := |groups[g]|;
      assert groups[g][0] == units[offset] && groups[g][n - 1] == units[offset + n - 1];
      assert chunks[g].startOffset == units[offset].startOffset;
      assert chunks[g].endOffset == units[offset + n - 1].endOffset;
      assert Spans(chunks[g], block.startOffset + p);
    }
  }

  lemma PartitionCovers(h: Hashing, input: Input, groups: seq<seq<Unit>>, chunks: seq<Chunk>, units: seq<Unit>,
                        blocks: seq<Block>, maxChars: nat)
    requires GreedyPartition(groups, units, maxChars) && ChunksOf(h, input, groups, chunks)
    requires UnitsOfDocument(units, blocks, maxChars)
    ensures forall b :: b in blocks ==> ChunksCoverBlock(chunks, b)
    ensures forall i :: 0 <= i < |chunks| ==> |chunks[i].text| == chunks[i].charCount <= maxChars
  {
    forall b | b in blocks
      ensures ChunksCoverBlock(chunks, b)
    {
      hide ChunksCoverBlock, CoversBlock, OrderedUnits, ChunksOf;
      ChunksCover(h, input, groups, chunks, units, b);
    }
    forall i | 0 <= i < |chunks|
      ensures |chunks[i].text| == chunks[i].charCount <= maxChars
    {
      hide ChunkText, SameStructure;
      assert Cohesive(groups[i], maxChars);
    }
  }

  function RequestedOptions(input: Input): (r: Result<Options, ChunkError>)
  {
    if !input.extraction.ready then Failure(NotReady) else ValidateOptions(input.options)
  }

  /**
    `chunkExtraction`. A document that is not ready, options out of range and more groups than
    `maxChunks` are the only failures. On success the chunks are exactly the groups of the unique
    greedy partition of the document's units, the anchors match them one to one, no chunk is longer
    than `maxChars`, and every position that is not white space is inside some chunk.
   */
  method ChunkExtraction(h: Hashing, input: Input)
    returns (r: Result<Chunked, ChunkError>, ghost units: seq<Unit>, ghost parts: seq<seq<Unit>>, ghost groups: seq<seq<Unit>>)
    requires OrderedBlocks(input.extraction.blocks)
    ensures RequestedOptions(input).Failure? ==> r == Failure(RequestedOptions(input).error)
    ensures RequestedOptions(input).Success? ==>
      var o := RequestedOptions(input).value;
      && UnitsOfDocument(units, input.extraction.blocks, o.maxChars)
      && IsSplitOf(input.extraction.blocks, o.maxChars, o.overlapChars, parts, units)
      && GreedyPartition(groups, units, o.maxChars)
      && (r.Success? <==> |groups| <= o.maxChunks)
      && (r.Failure? ==> r.error == TooManyChunks)
      && (r.Success? ==>
            && ChunksOf(h, input, groups, r.value.chunks)
            && |r.value.anchors| == |r.value.chunks|
            && (forall i :: 0 <= i < |r.value.chunks| ==>
                  && |r.value.chunks[i].text| == r.value.chunks[i].charCount <= o.maxChars
                  && r.value.anchors[i] == MakeAnchor(h, input, r.value.chunks[i]))
            && (forall b :: b in input.extraction.blocks ==> ChunksCoverBlock(r.value.chunks, b)))
  {
    units, parts, groups := [], [], [];
    if !input.extraction.ready {
      return Failure(NotReady), units, parts, groups;
    }
    var validated := ValidateOptions(input.options);
    if validated.Failure? {
      return Failure(validated.error), units, parts, groups;
    }
    var options := validated.value;
    var allUnits, allParts := SplitBlocks(input.extraction.blocks, options.maxChars, options.overlapChars);
    var grouped := GroupUnits(allUnits, options.maxChars);
    units, parts, groups := allUnits, allParts, grouped;
    if |grouped| > options.maxChunks {
      return Failure(TooManyChunks), units, parts, groups;
    }
    hide IsSplitOf, ExactSlice, OrderedUnits, CoversBlock, AllClosed, ChunksCoverBlock, Flatten, ChunkText, SameStructure;
    assert forall i :: 0 <= i < |grouped| ==> Cohesive(grouped[i], options.maxChars);
    var chunks := seq(|grouped|, i requires 0 <= i < |grouped| => MakeChunk(h, input, grouped[i], i));
    var anchors := seq(|chunks|, i requires 0 <= i < |chunks| => MakeAnchor(h, input, chunks[i]));
    PartitionCovers(h, input, groups, chunks, units, input.extraction.blocks, options.maxChars);
    r := Success(Chunked(chunks, anchors));
  }
}
