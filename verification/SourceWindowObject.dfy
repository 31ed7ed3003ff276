/** The buffer of ResampleAudio as the object updates it, in place in one array. */
module SourceWindowObject {
  import opened Arithmetic
  import opened SourceWindow

  /** Kept samples in front, fetched ones behind: the window slid. */
  lemma Refetched(child: int -> int, ch: nat, w: Window, want: int, need: nat, cells: seq<int>, overlap: nat, front: nat, back: nat)
    requires Fits(w, ch) && need < INT_LIMIT && overlap == Overlap(w, want) < need
    requires front == overlap * ch && back == (need - overlap) * ch && front + back == need * ch <= |cells|
    requires cells[..front] == Kept(w, ch, want)
    requires cells[front..front + back] == seq(back, k => child((want + overlap) * ch + k))
    ensures Window(want, need, cells[..front + back]) == Slide(child, ch, w, want, need)
  {
    hide Overlap, Kept;
    assert cells[..front + back] == cells[..front] + cells[front..front + back];
    assert cells[front..front + back] == Fetch(child, ch, want + overlap, need - overlap).data;
  }

  /** All that is needed was there already. */
  lemma Reused(child: int -> int, ch: nat, w: Window, want: int, need: nat, cells: seq<int>)
    requires Fits(w, ch) && need < INT_LIMIT && Overlap(w, want) >= need
    requires var a := Overlap(w, want); a * ch <= |cells| && cells[..a * ch] == Kept(w, ch, want)
    ensures var a := Overlap(w, want); Window(want, a, cells[..a * ch]) == Slide(child, ch, w, want, need)
  {
    hide Overlap, Kept;
    assert Fetch(child, ch, want + Overlap(w, want), 0).data == [];
  }

  class SourceBuffer {
    const ch: nat
    const width: nat
    const xoff: nat
    var cells: array?<int>
    var bytes: nat
    var lastStart: int
    var lastSamples: nat

    constructor (ch: nat, width: nat, xoff: nat)
      requires width > 0
      ensures this.ch == ch && this.width == width && this.xoff == xoff && Valid() && Abs() == Unallocated
    {
      this.ch, this.width, this.xoff := ch, width, xoff;
      cells, bytes, lastStart, lastSamples := null, 0, 0, 0;
    }

    ghost predicate Valid()
      reads this, cells
    {
      && width > 0
      && (cells != null ==> bytes == cells.Length * width && bytes < INT_LIMIT && lastSamples * ch <= cells.Length && lastSamples < INT_LIMIT)
    }

    ghost function Abs(): (b: Buffer)
      requires Valid()
      reads this, cells
      ensures b.Buffer? ==> Fits(b.window, ch)
    {
      if cells == null then Unallocated
      else Buffer(bytes, Window(lastStart, lastSamples, cells[..lastSamples * ch]))
    }

    /** The copy to the front: ascending, so it is right although source and target overlap. */
    method MoveDown(from: nat, count: nat)
      requires Valid() && cells != null && from + count <= cells.Length
      modifies cells
      ensures cells[..count] == old(cells[from..from + count])
    {
      for k := 0 to count
        invariant forall j :: 0 <= j < k ==> cells[j] == old(cells[from + j])
        invariant forall j :: k <= j < cells.Length ==> cells[j] == old(cells[j])
      {
        cells[k] := cells[from + k];
      }
      forall j | 0 <= j < count ensures cells[..count][j] == old(cells[from..from + count])[j] {}
    }

    /** child->GetAudio into the buffer from cell `at` on; `first` is the first cell's place in the child's stream. */
    method FetchInto(child: int -> int, at: nat, first: int, count: nat)
      requires Valid() && cells != null && at + count <= cells.Length
      modifies cells
      ensures cells[..at] == old(cells[..at])
      ensures cells[at..at + count] == seq(count, k => child(first + k))
    {
      for k := 0 to count
        invariant forall j :: 0 <= j < at ==> cells[j] == old(cells[j])
        invariant forall j :: at <= j < at + k ==> cells[j] == child(first + j - at)
      {
        cells[at + k] := child(first + k);
      }
    }

    /**
      The first part of GetAudio: bring the window to the requested samples. It
      then covers every source sample from the filter's reach before the stretch
      to the filter's reach behind it.
     */
    method Refill(child: int -> int, srcStart: int, srcEnd: int)
      requires Valid() && srcStart <= srcEnd && Small(AskFor(xoff, Call(srcStart, srcEnd)), ch, width)
      modifies this, cells
      ensures Valid()
      ensures cells != null && (cells == old(cells) || fresh(cells))
      ensures lastStart == srcStart / 0x8000 - xoff
      ensures lastStart + lastSamples > srcStart / 0x8000 + (srcEnd - srcStart) / 0x8000 + xoff
      ensures Abs() == Serve(child, ch, width, old(Abs()), AskFor(xoff, Call(srcStart, srcEnd)))
    {
      hide Slide;
      var need := (srcEnd - srcStart) / 0x8000 + 2 * xoff + 1;
      var length := need * ch;
      var sourceBytes := Int32(length * width);
      ghost var was := Abs();
      Cancel(length, if cells == null then 0 else cells.Length, width);
      assert Allocates(was, ch, width, Request(srcStart / 0x8000 - xoff, need)) <==> cells == null || sourceBytes > bytes;
      if cells == null || sourceBytes > bytes {
        cells := new int[length];
        bytes := sourceBytes;
        lastSamples := 0;
        lastStart := 0;
      }
      Advance(child, srcStart / 0x8000 - xoff, need);
    }

    /** Moves the reusable samples to the front; returns how many there are. */
    method Reuse(want: int) returns (overlap: nat)
      requires Valid() && cells != null
      modifies cells
      ensures Valid()
      ensures overlap == Overlap(old(Abs()).window, want) && overlap * ch <= cells.Length
      ensures cells[..overlap * ch] == Kept(old(Abs()).window, ch, want)
    {
      ghost var w := Abs().window;
      OverlapAtMost(w, want);
      var offset := Int32(want - lastStart);
      var fetched := Int32(lastSamples - offset);
      overlap := 0;
      if offset >= 0 && fetched > 0 {
        overlap := fetched;
        OverlapIs(w, want, ch);
        if offset > 0 {
          MoveDown(offset * ch, overlap * ch);
        }
      }
    }

    method Advance(child: int -> int, want: int, need: nat)
      requires Valid() && cells != null && need * ch <= cells.Length && need < INT_LIMIT
      modifies this`lastStart, this`lastSamples, cells
      ensures Valid() && cells != null
      ensures Abs().window == Slide(child, ch, old(Abs()).window, want, need)
    {
      hide Overlap, Kept, Slide;
      ghost var w := Abs().window;
      OverlapAtMost(w, want);
      var overlap := Reuse(want);
      lastStart := want;
      lastSamples := Max(overlap, need);
      if need - overlap > 0 {
        Distribute(overlap, need - overlap, ch);
        FetchInto(child, overlap * ch, (lastStart + overlap) * ch, (need - overlap) * ch);
        Refetched(child, ch, w, want, need, cells[..], overlap, overlap * ch, (need - overlap) * ch);
      } else {
        Reused(child, ch, w, want, need, cells[..]);
      }
    }
  }
}
