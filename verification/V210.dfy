/**
  v210 packing and unpacking (AviHelper.cpp): six pixels of planar 4:2:2 in
  four words of three 10-bit fields. A row's packing loop writes one group more
  than the row needs, possibly into the next row.
 */
module V210 {
  import opened Arithmetic

  type Word = bv32

  /** A 10-bit sample in a 16-bit cell of a plane. */
  predicate TenBit(s: Word) {
    s <= 0x3FF
  }

  function Join(a: Word, b: Word, c: Word): Word {
    a | (b << 10) | (c << 20)
  }

  function Low(w: Word): Word { w & 0x3FF }
  function Mid(w: Word): Word { (w >> 10) & 0x3FF }
  function High(w: Word): Word { (w >> 20) & 0x3FF }

  /** A field is right as soon as it and the fields below it are ten bits wide. */
  lemma FieldsOfJoin(a: Word, b: Word, c: Word)
    ensures TenBit(a) ==> Low(Join(a, b, c)) == a
    ensures TenBit(a) && TenBit(b) ==> Mid(Join(a, b, c)) == b
    ensures TenBit(a) && TenBit(b) && TenBit(c) ==> High(Join(a, b, c)) == c
  {
  }

  /** Groups that hold pixels, and groups the packing loop writes. */
  function Groups(width: nat): nat { (width + 5) / 6 }
  function Written(width: nat): nat { (width + 10) / 6 }

  /** Words per packed row: 16 bytes a group, rounded up to 128 bytes. */
  function Pitch(width: nat): nat { (16 * Groups(width) + 127) / 128 * 128 / 4 }

  /**
    The packed row holds every pixel in as few groups as possible, and takes as
    few bytes, in multiples of 128, as hold its groups of 16 bytes.
   */
  lemma PitchIs(width: nat)
    ensures width <= 6 * Groups(width) < width + 6
    ensures width + 5 <= 6 * Written(width) < width + 11
    ensures (4 * Pitch(width)) % 128 == 0
    ensures 16 * Groups(width) <= 4 * Pitch(width) < 16 * Groups(width) + 128
  {
    assert width <= 6 * Groups(width) < width + 6;
    hide Groups;
    RoundedUp(16 * Groups(width));
  }

  lemma RoundedUp(n: nat)
    ensures var bytes := (n + 127) / 128 * 128; bytes % 128 == 0 && 4 * (bytes / 4) == bytes && n <= bytes < n + 128
  {
    var k := (n + 127) / 128;
    assert n <= k * 128 < n + 128;
    Blocks(k);
  }

  lemma Blocks(k: nat)
    ensures (k * 128) % 128 == 0 && 4 * (k * 128 / 4) == k * 128
  {
    DivUnique(k, 128, 0);
    DivUnique(32 * k, 4, 0);
    assert k * 128 == 32 * k * 4;
  }

  lemma PitchFits(width: nat)
    ensures Groups(width) <= Written(width) <= Groups(width) + 1
    ensures 4 * Groups(width) <= Pitch(width)
    ensures 6 * Groups(width) >= width
  {
  }

  /** A source plane pair at given row starts: luma at yb, both chromas at cb. */
  datatype Planes = Planes(y: seq<Word>, u: seq<Word>, v: seq<Word>)

  predicate HasGroup(s: Planes, yb: nat, cb: nat, g: nat) {
    yb + 6 * g + 6 <= |s.y| && cb + 3 * g + 3 <= |s.u| && cb + 3 * g + 3 <= |s.v|
  }

  predicate GroupPacked(w: seq<Word>, at: nat, s: Planes, yb: nat, cb: nat, g: nat) {
    && HasGroup(s, yb, cb, g) && at + 4 * g + 4 <= |w|
    && var (k, i, c) := (at + 4 * g, yb + 6 * g, cb + 3 * g);
    && w[k] == Join(s.u[c], s.y[i], s.v[c])
    && w[k + 1] == Join(s.y[i + 1], s.u[c + 1], s.y[i + 2])
    && w[k + 2] == Join(s.v[c + 1], s.y[i + 3], s.u[c + 2])
    && w[k + 3] == Join(s.y[i + 4], s.v[c + 2], s.y[i + 5])
  }

  ghost predicate RowPacked(w: seq<Word>, at: nat, s: Planes, yb: nat, cb: nat, groups: nat) {
    forall g :: 0 <= g < groups ==> GroupPacked(w, at, s, yb, cb, g)
  }

  /** Where row r starts. */
  function Row(r: nat, pitch: nat): nat { r * pitch }

  /** Every row's own groups are packed; pitches are in samples and words. */
  ghost predicate Packed(w: seq<Word>, s: Planes, yp: nat, cp: nat, width: nat, height: nat) {
    forall r :: 0 <= r < height ==> RowPacked(w, Row(r, Pitch(width)), s, Row(r, yp), Row(r, cp), Groups(width))
  }

  ghost predicate RowFits(s: Planes, yb: nat, cb: nat, width: nat) {
    forall g :: 0 <= g < Written(width) ==> HasGroup(s, yb, cb, g)
  }

  /** The source lines are padded to the groups that the packing loop reads. */
  ghost predicate SourceFits(s: Planes, yp: nat, cp: nat, width: nat, height: nat) {
    forall r :: 0 <= r < height ==> RowFits(s, Row(r, yp), Row(r, cp), width)
  }

  // ----------------------------------------------------------------- packing

  method PackGroup(out: array<Word>, at: nat, s: Planes, yb: nat, cb: nat, g: nat)
    requires at + 4 * g + 4 <= out.Length && HasGroup(s, yb, cb, g)
    modifies out
    ensures GroupPacked(out[..], at, s, yb, cb, g)
    ensures out[..at + 4 * g] == old(out[..at + 4 * g])
  {
    hide Join;
    var k, i, c := at + 4 * g, yb + 6 * g, cb + 3 * g;
    out[k] := Join(s.u[c], s.y[i], s.v[c]);
    out[k + 1] := Join(s.y[i + 1], s.u[c + 1], s.y[i + 2]);
    out[k + 2] := Join(s.v[c + 1], s.y[i + 3], s.u[c + 2]);
    out[k + 3] := Join(s.y[i + 4], s.v[c + 2], s.y[i + 5]);
  }

  method PackLine(out: array<Word>, at: nat, s: Planes, yb: nat, cb: nat, width: nat)
    requires at + 4 * Written(width) <= out.Length
    requires RowFits(s, yb, cb, width)
    modifies out
    ensures RowPacked(out[..], at, s, yb, cb, Written(width))
    ensures out[..at] == old(out[..at])
  {
    hide GroupPacked, HasGroup;
    var x, g := 0, 0;
    while x < width + 5
      invariant x == 6 * g && 0 <= g <= Written(width)
      invariant RowPacked(out[..], at, s, yb, cb, g)
      invariant out[..at] == old(out[..at])
      decreases width + 5 - x
    {
      ghost var before := out[..];
      PackGroup(out, at, s, yb, cb, g);
      assert out[..][..at + 4 * g] == before[..at + 4 * g];
      assert out[..at] == out[..][..at + 4 * g][..at] && before[..at] == before[..at + 4 * g][..at];
      RowKept(before, out[..], at, s, yb, cb, g, at + 4 * g);
      x, g := x + 6, g + 1;
    }
  }

  /** Words before `end` did not change, so rows ending there are still packed. */
  lemma RowKept(w: seq<Word>, w': seq<Word>, at: nat, s: Planes, yb: nat, cb: nat, groups: nat, end: nat)
    requires RowPacked(w, at, s, yb, cb, groups) && at + 4 * groups <= end <= |w| && |w'| == |w| && w'[..end] == w[..end]
    ensures RowPacked(w', at, s, yb, cb, groups)
  {
    hide Join;
    assert forall k :: 0 <= k < end ==> w'[k] == w'[..end][k] == w[k];
    forall g | 0 <= g < groups ensures GroupPacked(w', at, s, yb, cb, g) {
      assert GroupPacked(w, at, s, yb, cb, g);
    }
  }

  lemma RowsApart(r: nat, row: nat, pitch: nat, len: nat)
    requires r < row && len <= pitch
    ensures Row(r, pitch) + len <= Row(row, pitch)
  {
    var d := row - r;
    Distribute(r, d, pitch);
    assert d >= 1 ==> d * pitch >= pitch;
  }

  lemma NextRow(r: nat, pitch: nat)
    ensures Row(0, pitch) == 0 && Row(r + 1, pitch) == Row(r, pitch) + pitch
  {
    Distribute(r, 1, pitch);
  }

  /** One more row is packed, and the rows above end before it. */
  lemma PackedMore(w: seq<Word>, w': seq<Word>, s: Planes, yp: nat, cp: nat, width: nat, row: nat)
    requires Packed(w, s, yp, cp, width, row) && |w'| == |w| && Row(row, Pitch(width)) <= |w|
    requires w'[..Row(row, Pitch(width))] == w[..Row(row, Pitch(width))]
    requires RowPacked(w', Row(row, Pitch(width)), s, Row(row, yp), Row(row, cp), Written(width))
    ensures Packed(w', s, yp, cp, width, row + 1)
  {
    hide RowPacked, Pitch, Groups, Written, Row;
    PitchFits(width);
    FewerGroups(w', Row(row, Pitch(width)), s, Row(row, yp), Row(row, cp), width);
    var pitch := Pitch(width);
    forall r | 0 <= r < row + 1 ensures RowPacked(w', Row(r, pitch), s, Row(r, yp), Row(r, cp), Groups(width)) {
      if r < row {
        RowsApart(r, row, pitch, 4 * Groups(width));
        RowKept(w, w', Row(r, pitch), s, Row(r, yp), Row(r, cp), Groups(width), Row(row, pitch));
      }
    }
  }

  lemma FewerGroups(w: seq<Word>, at: nat, s: Planes, yb: nat, cb: nat, width: nat)
    requires RowPacked(w, at, s, yb, cb, Written(width))
    ensures RowPacked(w, at, s, yb, cb, Groups(width))
  {
    hide GroupPacked;
  }

  /** Packs the image; each row may spill one group into the next, which then overwrites it. */
  method Pack(out: array<Word>, s: Planes, yp: nat, cp: nat, width: nat, height: nat)
    requires SourceFits(s, yp, cp, width, height)
    requires height > 0 ==> Row(height - 1, Pitch(width)) + 4 * Written(width) <= out.Length
    modifies out
    ensures Packed(out[..], s, yp, cp, width, height)
  {
    hide Pitch, Groups, Written, RowPacked, RowFits, Row;
    var pitch := Pitch(width);
    var at, yb, cb := 0, 0, 0;
    NextRow(0, pitch);
    NextRow(0, yp);
    NextRow(0, cp);
    for row := 0 to height
      invariant at == Row(row, pitch) && yb == Row(row, yp) && cb == Row(row, cp)
      invariant Packed(out[..], s, yp, cp, width, row)
    {
      if row < height - 1 { RowsApart(row, height - 1, pitch, 0); }
      ghost var before := out[..];
      PackLine(out, at, s, yb, cb, width);
      assert out[..][..at] == before[..at];
      PackedMore(before, out[..], s, yp, cp, width, row);
      NextRow(row, pitch);
      NextRow(row, yp);
      NextRow(row, cp);
      at, yb, cb := at + pitch, yb + yp, cb + cp;
    }
  }

  // --------------------------------------------------------------- unpacking

  predicate HasPair(s: Planes, yb: nat, cb: nat, p: nat) {
    yb + 2 * p + 2 <= |s.y| && cb + p < |s.u| && cb + p < |s.v|
  }

  /** Luma, luma, U and V of pixel pair m in the group of words at k. */
  function PairFields(w: seq<Word>, k: nat, m: nat): (Word, Word, Word, Word)
    requires k + 4 <= |w|
  {
    match m
    case 0 => (Mid(w[k]), Low(w[k + 1]), Low(w[k]), High(w[k]))
    case 1 => (High(w[k + 1]), Mid(w[k + 2]), Mid(w[k + 1]), Low(w[k + 2]))
    case _ => (Low(w[k + 3]), High(w[k + 3]), High(w[k + 2]), Mid(w[k + 3]))
  }

  /** Pair p of the row holds these samples. */
  predicate PairIs(d: Planes, yb: nat, cb: nat, p: nat, f: (Word, Word, Word, Word)) {
    HasPair(d, yb, cb, p) && d.y[yb + 2 * p] == f.0 && d.y[yb + 2 * p + 1] == f.1 && d.u[cb + p] == f.2 && d.v[cb + p] == f.3
  }

  predicate PairUnpacked(w: seq<Word>, at: nat, d: Planes, yb: nat, cb: nat, g: nat, m: nat) {
    at + 4 * g + 4 <= |w| && PairIs(d, yb, cb, 3 * g + m, PairFields(w, at + 4 * g, m))
  }

  predicate PairOk(s: Planes, yb: nat, cb: nat, p: nat) {
    && HasPair(s, yb, cb, p)
    && TenBit(s.y[yb + 2 * p]) && TenBit(s.y[yb + 2 * p + 1]) && TenBit(s.u[cb + p]) && TenBit(s.v[cb + p])
  }

  /** Pair p of d, at its row's start, equals pair p of s. */
  predicate SamePair(s: Planes, yb: nat, cb: nat, d: Planes, yb': nat, cb': nat, p: nat) {
    && HasPair(s, yb, cb, p) && HasPair(d, yb', cb', p)
    && d.y[yb' + 2 * p] == s.y[yb + 2 * p] && d.y[yb' + 2 * p + 1] == s.y[yb + 2 * p + 1]
    && d.u[cb' + p] == s.u[cb + p] && d.v[cb' + p] == s.v[cb + p]
  }

  /** Whatever the padding behind pair m holds. */
  lemma PairRoundTrip(w: seq<Word>, at: nat, s: Planes, yb: nat, cb: nat, d: Planes, yb': nat, cb': nat, g: nat, m: nat)
    requires GroupPacked(w, at, s, yb, cb, g) && PairUnpacked(w, at, d, yb', cb', g, m) && m < 3
    requires forall p :: 3 * g <= p <= 3 * g + m ==> PairOk(s, yb, cb, p)
    ensures SamePair(s, yb, cb, d, yb', cb', 3 * g + m)
  {
    hide PairFields, GroupPacked, PairOk;
    GroupFields(w, at, s, yb, cb, g, m);
  }

  /** The n-th 10-bit field of a row that starts at `at`: three fields a word, the lowest bits first. */
  function Field(w: seq<Word>, at: nat, n: nat): Word
    requires at + n / 3 < |w|
  {
    if n % 3 == 0 then Low(w[at + n / 3]) else if n % 3 == 1 then Mid(w[at + n / 3]) else High(w[at + n / 3])
  }

  /** The n-th sample of a row's UYVY stream: chroma and luma in turn, U and V in turn. */
  function Sample(s: Planes, yb: nat, cb: nat, n: nat): Word
    requires HasPair(s, yb, cb, n / 4)
  {
    if n % 4 == 0 then s.u[cb + n / 4]
    else if n % 4 == 2 then s.v[cb + n / 4]
    else s.y[yb + n / 2]
  }

  lemma Place(g: nat, m: nat, k: nat)
    requires m < 3 && k < 4
    ensures var n, j := 12 * g + 4 * m + k, 4 * m + k;
      n / 3 == 4 * g + j / 3 && n % 3 == j % 3 && n / 4 == 3 * g + m && n % 4 == k && n / 2 == 6 * g + 2 * m + k / 2
  {
  }

  /** The four fields of pixel pair m of a group, in the order of the stream. */
  lemma PairIsStream(w: seq<Word>, at: nat, g: nat, m: nat, k: nat)
    requires at + 4 * g + 4 <= |w| && m < 3 && k < 4
    ensures at + (12 * g + 4 * m + k) / 3 < |w|
    ensures var f := PairFields(w, at + 4 * g, m);
      Field(w, at, 12 * g + 4 * m + k) == if k == 0 then f.2 else if k == 1 then f.0 else if k == 2 then f.3 else f.1
  {
    hide Low, Mid, High;
    Place(g, m, k);
  }

  /** A packed group gives back the samples of pair m, whatever the padding behind it holds. */
  lemma GroupFields(w: seq<Word>, at: nat, s: Planes, yb: nat, cb: nat, g: nat, m: nat)
    requires GroupPacked(w, at, s, yb, cb, g) && m < 3
    requires forall p :: 3 * g <= p <= 3 * g + m ==> PairOk(s, yb, cb, p)
    ensures HasPair(s, yb, cb, 3 * g + m) && PairIs(s, yb, cb, 3 * g + m, PairFields(w, at + 4 * g, m))
  {
    hide Join, Low, Mid, High, TenBit;
    var i, c := yb + 6 * g, cb + 3 * g;
    FieldsOfJoin(s.u[c], s.y[i], s.v[c]);
    FieldsOfJoin(s.y[i + 1], s.u[c + 1], s.y[i + 2]);
    FieldsOfJoin(s.v[c + 1], s.y[i + 3], s.u[c + 2]);
    FieldsOfJoin(s.y[i + 4], s.v[c + 2], s.y[i + 5]);
    assert PairOk(s, yb, cb, 3 * g);
    if m > 0 { assert PairOk(s, yb, cb, 3 * g + 1); }
    if m > 1 { assert PairOk(s, yb, cb, 3 * g + 2); }
  }

  lemma PairSample(s: Planes, yb: nat, cb: nat, g: nat, m: nat, k: nat)
    requires m < 3 && k < 4 && HasPair(s, yb, cb, 3 * g + m)
    ensures HasPair(s, yb, cb, (12 * g + 4 * m + k) / 4)
    ensures var p := 3 * g + m;
      Sample(s, yb, cb, 12 * g + 4 * m + k) ==
        if k == 0 then s.u[cb + p] else if k == 1 then s.y[yb + 2 * p] else if k == 2 then s.v[cb + p] else s.y[yb + 2 * p + 1]
  {
    Place(g, m, k);
  }

  lemma Split(n: nat)
    ensures n == 12 * (n / 12) + 4 * (n / 4 % 3) + n % 4 && n / 4 == 3 * (n / 12) + n / 4 % 3
  {
  }

  /**
    The v210 layout, told without groups: as far as its pixel pairs are ten bits
    wide, the fields of a packed row are its UYVY stream.
   */
  lemma PackedIsStream(w: seq<Word>, at: nat, s: Planes, yb: nat, cb: nat, groups: nat, n: nat)
    requires RowPacked(w, at, s, yb, cb, groups) && n < 12 * groups
    requires forall p :: 0 <= p <= n / 4 ==> PairOk(s, yb, cb, p)
    ensures at + n / 3 < |w| && HasPair(s, yb, cb, n / 4) && Field(w, at, n) == Sample(s, yb, cb, n)
  {
    hide GroupPacked, PairOk, Field, Sample, PairFields, HasPair;
    var g, m, k := n / 12, n / 4 % 3, n % 4;
    Split(n);
    assert GroupPacked(w, at, s, yb, cb, g);
    GroupEnds(w, at, s, yb, cb, g);
    GroupFields(w, at, s, yb, cb, g, m);
    PairIsStream(w, at, g, m, k);
    PairSample(s, yb, cb, g, m, k);
  }

  lemma GroupEnds(w: seq<Word>, at: nat, s: Planes, yb: nat, cb: nat, g: nat)
    requires GroupPacked(w, at, s, yb, cb, g)
    ensures at + 4 * g + 4 <= |w|
  {
  }

  ghost predicate RowUnpacked(w: seq<Word>, at: nat, d: Planes, yb: nat, cb: nat, pairs: nat) {
    forall g, m :: 0 <= g && 0 <= m < 3 && 3 * g + m < pairs ==> PairUnpacked(w, at, d, yb, cb, g, m)
  }

  /** Unpacking reads the same stream. */
  lemma UnpackedIsStream(w: seq<Word>, at: nat, d: Planes, yb: nat, cb: nat, pairs: nat, n: nat)
    requires RowUnpacked(w, at, d, yb, cb, pairs) && n < 4 * pairs
    ensures at + n / 3 < |w| && HasPair(d, yb, cb, n / 4) && Sample(d, yb, cb, n) == Field(w, at, n)
  {
    hide Field, Sample, PairFields;
    var g, m, k := n / 12, n / 4 % 3, n % 4;
    Split(n);
    assert PairUnpacked(w, at, d, yb, cb, g, m);
    PairIsStream(w, at, g, m, k);
    PairSample(d, yb, cb, g, m, k);
  }

  ghost predicate Unpacked(w: seq<Word>, d: Planes, yp: nat, cp: nat, width: nat, height: nat) {
    forall r :: 0 <= r < height ==> RowUnpacked(w, Row(r, Pitch(width)), d, Row(r, yp), Row(r, cp), width / 2)
  }

  lemma GroupOf(p: nat, width: nat)
    requires p < width / 2
    ensures p == 3 * (p / 3) + p % 3 && p / 3 < Groups(width)
  {
  }

  /**
    Round trip. For every width and height, all ten-bit samples and any padding,
    unpacking the packed buffer restores every complete pixel pair; for an even
    width that is the whole picture.
   */
  lemma RoundTrip(w: seq<Word>, s: Planes, yp: nat, cp: nat, d: Planes, yp': nat, cp': nat, width: nat, height: nat, r: nat, p: nat)
    requires Packed(w, s, yp, cp, width, height) && Unpacked(w, d, yp', cp', width, height)
    requires r < height && p < width / 2
    requires forall q :: 0 <= q < width / 2 ==> PairOk(s, Row(r, yp), Row(r, cp), q)
    ensures SamePair(s, Row(r, yp), Row(r, cp), d, Row(r, yp'), Row(r, cp'), p)
  {
    hide Row, Pitch, GroupPacked, PairUnpacked, Groups, PairOk;
    GroupOf(p, width);
    var at, g, m := Row(r, Pitch(width)), p / 3, p % 3;
    assert GroupPacked(w, at, s, Row(r, yp), Row(r, cp), g);
    assert PairUnpacked(w, at, d, Row(r, yp'), Row(r, cp'), g, m);
    PairRoundTrip(w, at, s, Row(r, yp), Row(r, cp), d, Row(r, yp'), Row(r, cp'), g, m);
  }

  // ------------------------------------------------------- the unpacking loop

  /** Nothing before pair p of the row changed, and nothing behind it. */
  ghost predicate OnlyPair(d: Planes, d': Planes, yb: nat, cb: nat, p: nat) {
    && HasPair(d, yb, cb, p) && |d'.y| == |d.y| && |d'.u| == |d.u| && |d'.v| == |d.v|
    && (forall k :: 0 <= k < |d.y| && (k < yb + 2 * p || k >= yb + 2 * p + 2) ==> d'.y[k] == d.y[k])
    && (forall k :: 0 <= k < |d.u| && k != cb + p ==> d'.u[k] == d.u[k])
    && (forall k :: 0 <= k < |d.v| && k != cb + p ==> d'.v[k] == d.v[k])
  }

  /** Outside the row's pairs nothing changed. */
  ghost predicate OnlyRow(d: Planes, d': Planes, yb: nat, cb: nat, pairs: nat) {
    && |d'.y| == |d.y| && |d'.u| == |d.u| && |d'.v| == |d.v|
    && (forall k :: 0 <= k < |d.y| && (k < yb || k >= yb + 2 * pairs) ==> d'.y[k] == d.y[k])
    && (forall k :: 0 <= k < |d.u| && (k < cb || k >= cb + pairs) ==> d'.u[k] == d.u[k])
    && (forall k :: 0 <= k < |d.v| && (k < cb || k >= cb + pairs) ==> d'.v[k] == d.v[k])
  }

  /** Cell k of a plane lies in none of the rows' pairs. */
  ghost predicate Outside(k: nat, pitch: nat, len: nat, height: nat) {
    forall r :: 0 <= r < height ==> k < Row(r, pitch) || k >= Row(r, pitch) + len
  }

  /** Outside the rows' pairs, an odd last column included, nothing changed. */
  ghost predicate OnlyRows(d: Planes, d': Planes, yp: nat, cp: nat, width: nat, height: nat) {
    && |d'.y| == |d.y| && |d'.u| == |d.u| && |d'.v| == |d.v|
    && (forall k :: 0 <= k < |d.y| && Outside(k, yp, 2 * (width / 2), height) ==> d'.y[k] == d.y[k])
    && (forall k :: 0 <= k < |d.u| && Outside(k, cp, width / 2, height) ==> d'.u[k] == d.u[k])
    && (forall k :: 0 <= k < |d.v| && Outside(k, cp, width / 2, height) ==> d'.v[k] == d.v[k])
  }

  lemma RowsWritten(d: Planes, e: Planes, d': Planes, yp: nat, cp: nat, width: nat, row: nat)
    requires OnlyRows(d, e, yp, cp, width, row) && OnlyRow(e, d', Row(row, yp), Row(row, cp), width / 2)
    ensures OnlyRows(d, d', yp, cp, width, row + 1)
  {
    hide Row, Outside;
    forall k | 0 <= k < |d.y| && Outside(k, yp, 2 * (width / 2), row + 1) ensures d'.y[k] == d.y[k] {
      OutsideLess(k, yp, 2 * (width / 2), row);
    }
    forall k | 0 <= k && Outside(k, cp, width / 2, row + 1)
      ensures k < |d.u| ==> d'.u[k] == d.u[k]
      ensures k < |d.v| ==> d'.v[k] == d.v[k]
    {
      OutsideLess(k, cp, width / 2, row);
    }
  }

  lemma OutsideLess(k: nat, pitch: nat, len: nat, row: nat)
    requires Outside(k, pitch, len, row + 1)
    ensures Outside(k, pitch, len, row) && (k < Row(row, pitch) || k >= Row(row, pitch) + len)
  {
    hide Row;
  }

  lemma PairKept(w: seq<Word>, at: nat, d: Planes, d': Planes, yb: nat, cb: nat, g: nat, m: nat, p: nat)
    requires PairUnpacked(w, at, d, yb, cb, g, m) && OnlyPair(d, d', yb, cb, p) && 3 * g + m < p
    ensures PairUnpacked(w, at, d', yb, cb, g, m)
  {
    hide Low, Mid, High;
  }

  lemma RowGrows(w: seq<Word>, at: nat, d: Planes, d': Planes, yb: nat, cb: nat, g: nat, m: nat)
    requires m < 3 && RowUnpacked(w, at, d, yb, cb, 3 * g + m) && OnlyPair(d, d', yb, cb, 3 * g + m)
    requires PairUnpacked(w, at, d', yb, cb, g, m)
    ensures RowUnpacked(w, at, d', yb, cb, 3 * g + m + 1)
  {
    hide PairUnpacked, OnlyPair;
    forall g', m' | 0 <= g' && 0 <= m' < 3 && 3 * g' + m' < 3 * g + m + 1 ensures PairUnpacked(w, at, d', yb, cb, g', m') {
      if 3 * g' + m' < 3 * g + m {
        assert PairUnpacked(w, at, d, yb, cb, g', m');
        PairKept(w, at, d, d', yb, cb, g', m', 3 * g + m);
      }
    }
  }

  lemma RowWritten(d: Planes, e: Planes, d': Planes, yb: nat, cb: nat, p: nat)
    requires OnlyRow(d, e, yb, cb, p) && OnlyPair(e, d', yb, cb, p)
    ensures OnlyRow(d, d', yb, cb, p + 1)
  {
  }

  lemma Stored(w: seq<Word>, at: nat, d: Planes, yb: nat, cb: nat, g: nat, m: nat)
    requires at + 4 * g + 4 <= |w| && PairIs(d, yb, cb, 3 * g + m, PairFields(w, at + 4 * g, m))
    ensures PairUnpacked(w, at, d, yb, cb, g, m)
  {
  }

  /** Full groups and the rest of a row. */
  lemma RowParts(width: nat)
    ensures var full := width / 6; var rest := width - full * 6;
      && 0 <= rest < 6 && width / 2 == 3 * full + (if rest >= 4 then 2 else if rest >= 2 then 1 else 0)
      && full <= Groups(width) && (rest >= 2 ==> full + 1 <= Groups(width))
  {
  }

  lemma NothingYet(w: seq<Word>, at: nat, d: Planes, yb: nat, cb: nat)
    ensures RowUnpacked(w, at, d, yb, cb, 0) && OnlyRow(d, d, yb, cb, 0)
  {
  }

  class Destination {
    const y: array<Word>
    const u: array<Word>
    const v: array<Word>

    constructor (y: array<Word>, u: array<Word>, v: array<Word>)
      requires y != u && u != v && y != v
      ensures this.y == y && this.u == u && this.v == v && Valid()
    {
      this.y, this.u, this.v := y, u, v;
    }

    ghost predicate Valid() {
      y != u && u != v && y != v
    }

    ghost function Contents(): Planes
      reads y, u, v
    {
      Planes(y[..], u[..], v[..])
    }

    /** The four assignments for one pixel pair. */
    method StorePair(yb: nat, cb: nat, p: nat, f: (Word, Word, Word, Word))
      requires Valid() && yb + 2 * p + 2 <= y.Length && cb + p < u.Length && cb + p < v.Length
      modifies y, u, v
      ensures PairIs(Contents(), yb, cb, p, f) && OnlyPair(old(Contents()), Contents(), yb, cb, p)
    {
      u[cb + p] := f.2;
      v[cb + p] := f.3;
      y[yb + 2 * p] := f.0;
      y[yb + 2 * p + 1] := f.1;
    }

    /** Extends an unpacked row by one pair. */
    method NextPair(w: seq<Word>, at: nat, yb: nat, cb: nat, g: nat, m: nat, ghost before: Planes)
      requires Valid() && m < 3 && at + 4 * g + 4 <= |w|
      requires yb + 6 * g + 2 * m + 2 <= y.Length && cb + 3 * g + m < u.Length && cb + 3 * g + m < v.Length
      requires RowUnpacked(w, at, Contents(), yb, cb, 3 * g + m) && OnlyRow(before, Contents(), yb, cb, 3 * g + m)
      modifies y, u, v
      ensures RowUnpacked(w, at, Contents(), yb, cb, 3 * g + m + 1) && OnlyRow(before, Contents(), yb, cb, 3 * g + m + 1)
    {
      hide PairUnpacked, OnlyPair, OnlyRow, RowUnpacked, PairIs, PairFields;
      ghost var mid := Contents();
      StorePair(yb, cb, 3 * g + m, PairFields(w, at + 4 * g, m));
      Stored(w, at, Contents(), yb, cb, g, m);
      RowGrows(w, at, mid, Contents(), yb, cb, g, m);
      RowWritten(before, mid, Contents(), yb, cb, 3 * g + m);
    }

    /** Whole groups, then the rest of two or four pixels. */
    method UnpackLine(w: seq<Word>, at: nat, yb: nat, cb: nat, width: nat)
      requires Valid() && at + 4 * Groups(width) <= |w|
      requires yb + 2 * (width / 2) <= y.Length && cb + width / 2 <= u.Length && cb + width / 2 <= v.Length
      modifies y, u, v
      ensures RowUnpacked(w, at, Contents(), yb, cb, width / 2)
      ensures OnlyRow(old(Contents()), Contents(), yb, cb, width / 2)
    {
      hide RowUnpacked, OnlyRow, Groups;
      ghost var before := Contents();
      RowParts(width);
      NothingYet(w, at, before, yb, cb);
      var full := width / 6;
      var width6 := full * 6;
      var rest := width - width6;
      var x, g := 0, 0;
      while x < width6
        invariant x == 6 * g && 0 <= g <= full
        invariant RowUnpacked(w, at, Contents(), yb, cb, 3 * g) && OnlyRow(before, Contents(), yb, cb, 3 * g)
        decreases width6 - x
      {
        NextPair(w, at, yb, cb, g, 0, before);
        NextPair(w, at, yb, cb, g, 1, before);
        NextPair(w, at, yb, cb, g, 2, before);
        x, g := x + 6, g + 1;
      }
      if rest >= 2 {
        NextPair(w, at, yb, cb, g, 0, before);
        if rest >= 4 {
          NextPair(w, at, yb, cb, g, 1, before);
        }
      }
    }

    method Unpack(w: seq<Word>, yp: nat, cp: nat, width: nat, height: nat)
      requires Valid() && 2 * (width / 2) <= yp && width / 2 <= cp
      requires height > 0 ==>
        && Row(height - 1, Pitch(width)) + 4 * Groups(width) <= |w|
        && Row(height - 1, yp) + 2 * (width / 2) <= y.Length
        && Row(height - 1, cp) + width / 2 <= u.Length && Row(height - 1, cp) + width / 2 <= v.Length
      modifies y, u, v
      ensures Unpacked(w, Contents(), yp, cp, width, height)
      ensures OnlyRows(old(Contents()), Contents(), yp, cp, width, height)
    {
      hide RowUnpacked, OnlyRow, Row, Pitch, Groups, Outside;
      PitchFits(width);
      var pitch := Pitch(width);
      var at, yb, cb := 0, 0, 0;
      NextRow(0, pitch);
      NextRow(0, yp);
      NextRow(0, cp);
      for row := 0 to height
        invariant at == Row(row, pitch) && yb == Row(row, yp) && cb == Row(row, cp)
        invariant Unpacked(w, Contents(), yp, cp, width, row)
        invariant OnlyRows(old(Contents()), Contents(), yp, cp, width, row)
      {
        hide OnlyRows;
        if row < height - 1 {
          RowsApart(row, height - 1, pitch, 0);
          RowsApart(row, height - 1, yp, 0);
          RowsApart(row, height - 1, cp, 0);
        }
        ghost var before := Contents();
        UnpackLine(w, at, yb, cb, width);
        UnpackedMore(w, before, Contents(), yp, cp, width, row);
        RowsWritten(old(Contents()), before, Contents(), yp, cp, width, row);
        NextRow(row, pitch);
        NextRow(row, yp);
        NextRow(row, cp);
        at, yb, cb := at + pitch, yb + yp, cb + cp;
      }
    }
  }

  lemma UnpackedMore(w: seq<Word>, d: Planes, d': Planes, yp: nat, cp: nat, width: nat, row: nat)
    requires Unpacked(w, d, yp, cp, width, row) && 2 * (width / 2) <= yp && width / 2 <= cp
    requires OnlyRow(d, d', Row(row, yp), Row(row, cp), width / 2)
    requires RowUnpacked(w, Row(row, Pitch(width)), d', Row(row, yp), Row(row, cp), width / 2)
    ensures Unpacked(w, d', yp, cp, width, row + 1)
  {
    hide RowUnpacked, Row, Pitch, OnlyRow;
    forall r | 0 <= r < row + 1
      ensures RowUnpacked(w, Row(r, Pitch(width)), d', Row(r, yp), Row(r, cp), width / 2)
    {
      if r < row {
        RowsApart(r, row, yp, 2 * (width / 2));
        RowsApart(r, row, cp, width / 2);
        RowUntouched(w, Row(r, Pitch(width)), d, d', Row(r, yp), Row(r, cp), Row(row, yp), Row(row, cp), width / 2);
      }
    }
  }

  lemma RowUntouched(w: seq<Word>, at: nat, d: Planes, d': Planes, yb: nat, cb: nat, yb': nat, cb': nat, pairs: nat)
    requires RowUnpacked(w, at, d, yb, cb, pairs) && OnlyRow(d, d', yb', cb', pairs)
    requires yb + 2 * pairs <= yb' && cb + pairs <= cb'
    ensures RowUnpacked(w, at, d', yb, cb, pairs)
  {
    hide Low, Mid, High;
    forall g, m | 0 <= g && 0 <= m < 3 && 3 * g + m < pairs ensures PairUnpacked(w, at, d', yb, cb, g, m) {
      assert PairUnpacked(w, at, d, yb, cb, g, m);
    }
  }
}
