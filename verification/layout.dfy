/**
 The atlas layout engine: `App::getGlyphRectangles` and the page planner `App::arrangeGlyphs`.

 The rectangle packer (`rbp::MaxRectsBinPack`) is an oracle `pack(workW, workH, rects)`
 returning the rectangles it placed and the ones left over. The planner relies only on
 `ValidPacker`: placed footprints plus left-overs are a permutation of the input, every
 placed rectangle lies inside the work area, and no two overlap.
 */
module Layout {
  import opened Wrappers
  import opened MachineInts
  import opened Glyphs

  datatype Spacing = Spacing(hor: nat, ver: nat)
  datatype Padding = Padding(up: nat, right: nat, down: nat, left: nat)
  datatype Alignment = Alignment(hor: nat, ver: nat)
  datatype Size = Size(w: nat, h: nat)

  /** The part of `Config` that the planner reads. */
  datatype LayoutConfig = LayoutConfig(
    spacing: Spacing,
    padding: Padding,
    alignment: Alignment,
    textureSizes: seq<Size>,
    cropWidth: bool,
    cropHeight: bool)

  /** Zero alignments are rejected while parsing the options. */
  predicate AlignmentOk(a: Alignment)
  {
    a.hor > 0 && a.ver > 0
  }

  function ExtraWidth(c: LayoutConfig): nat
  {
    c.spacing.hor + c.padding.left + c.padding.right
  }

  function ExtraHeight(c: LayoutConfig): nat
  {
    c.spacing.ver + c.padding.up + c.padding.down
  }

  /** `((v + a - 1) / a) * a`: the least multiple of `a` that is at least `v`. */
  function AlignUp(v: nat, a: nat): (r: nat)
    requires a > 0
    ensures r % a == 0 && v <= r < v + a
  {
    var q := (v + a - 1) / a;
    DivModUnique(q * a, a, q, 0);
    q * a
  }

  /** `rbp::RectSize`: the room a glyph needs in the atlas, tagged with its glyph index. */
  datatype Rect = Rect(width: nat, height: nat, tag: nat)

  /** `rbp::Rect`: a rectangle the packer put at (x, y) of the work area. */
  datatype Placed = Placed(x: nat, y: nat, width: nat, height: nat, tag: nat)

  /** The rectangle of a table entry: its sides inflated by the extra amounts, then aligned. */
  function RectOf(e: Entry, extraW: nat, extraH: nat, al: Alignment): (r: Rect)
    requires AlignmentOk(al)
    ensures r.tag == e.key
    ensures r.width % al.hor == 0 && e.glyph.width + extraW <= r.width < e.glyph.width + extraW + al.hor
    ensures r.height % al.ver == 0 && e.glyph.height + extraH <= r.height < e.glyph.height + extraH + al.ver
  {
    Rect(AlignUp(e.glyph.width + extraW, al.hor), AlignUp(e.glyph.height + extraH, al.ver), e.key)
  }

  predicate TagsIncreasing(rs: seq<Rect>)
  {
    forall i, j :: 0 <= i < j < |rs| ==> rs[i].tag < rs[j].tag
  }

  /** Every key after the first entry of a sorted table is greater than the first key. */
  lemma TailKeysAbove(t: seq<Entry>, e: Entry)
    requires |t| > 0 && KeysSorted(t) && e in t[1..]
    ensures t[0].key < e.key
  {
    var m :| 0 <= m < |t[1..]| && t[1..][m] == e;
    assert t[m + 1] == e;
  }

  /** `getGlyphRectangles`: one rectangle per non-empty glyph, in key order. */
  function GlyphRectangles(t: seq<Entry>, extraW: nat, extraH: nat, al: Alignment): (rs: seq<Rect>)
    requires AlignmentOk(al)
    ensures forall r :: r in rs ==> exists e :: e in t && !IsEmpty(e.glyph) && r == RectOf(e, extraW, extraH, al)
    ensures forall e :: e in t && !IsEmpty(e.glyph) ==> RectOf(e, extraW, extraH, al) in rs
    ensures KeysSorted(t) ==> TagsIncreasing(rs)
  {
    if t == [] then []
    else
      var rest := GlyphRectangles(t[1..], extraW, extraH, al);
      assert forall e :: e in t ==> e == t[0] || e in t[1..];
      if IsEmpty(t[0].glyph) then rest
      else
        var r := RectOf(t[0], extraW, extraH, al);
        assert KeysSorted(t) ==> forall q :: q in rest ==> r.tag < q.tag by {
          if KeysSorted(t) {
            forall q | q in rest
              ensures r.tag < q.tag
            {
              var e :| e in t[1..] && !IsEmpty(e.glyph) && q == RectOf(e, extraW, extraH, al);
              TailKeysAbove(t, e);
            }
          }
        }
        [r] + rest
  }

  /** The sum of the rectangle areas (`allGlyphSquare`). */
  function TotalArea(rs: seq<Rect>): nat
  {
    if rs == [] then 0 else rs[0].width * rs[0].height + TotalArea(rs[1..])
  }

  // ---------------------------------------------------------------- the packer oracle

  datatype Packing = Packing(placed: seq<Placed>, unplaced: seq<Rect>)

  type Packer = (nat, nat, seq<Rect>) -> Packing

  function Footprint(p: Placed): Rect
  {
    Rect(p.width, p.height, p.tag)
  }

  function Footprints(ps: seq<Placed>): (fs: seq<Rect>)
    ensures |fs| == |ps|
  {
    seq(|ps|, i requires 0 <= i < |ps| => Footprint(ps[i]))
  }

  predicate InArea(p: Placed, w: nat, h: nat)
  {
    p.x + p.width <= w && p.y + p.height <= h
  }

  predicate Apart(p: Placed, q: Placed)
  {
    p.x + p.width <= q.x || q.x + q.width <= p.x || p.y + p.height <= q.y || q.y + q.height <= p.y
  }

  /** What the planner relies on from one call of the packer. */
  predicate PackingOk(w: nat, h: nat, rs: seq<Rect>, out: Packing)
  {
    multiset(Footprints(out.placed)) + multiset(out.unplaced) == multiset(rs)
    && (forall i :: 0 <= i < |out.placed| ==> InArea(out.placed[i], w, h))
    && (forall i, j :: 0 <= i < j < |out.placed| ==> Apart(out.placed[i], out.placed[j]))
  }

  ghost predicate ValidPacker(pack: Packer)
  {
    forall w: nat, h: nat, rs: seq<Rect> :: PackingOk(w, h, rs, pack(w, h, rs))
  }

  /** A packing that places something leaves strictly fewer rectangles behind. */
  lemma PlacingShrinks(w: nat, h: nat, rs: seq<Rect>, out: Packing)
    requires PackingOk(w, h, rs, out) && out.placed != []
    ensures |out.unplaced| < |rs|
  {
    assert |multiset(Footprints(out.placed))| + |multiset(out.unplaced)| == |multiset(rs)|;
  }

  // ---------------------------------------------------------------- one page

  /** `ss.w - config.spacing.hor`, an unsigned 32-bit subtraction. */
  function WorkWidth(s: Size, sp: Spacing): nat
  {
    ToU32(s.w - sp.hor)
  }

  function WorkHeight(s: Size, sp: Spacing): nat
  {
    ToU32(s.h - sp.ver)
  }

  /** `textureSquare`, a 64-bit product of two 32-bit factors (it cannot overflow). */
  function WorkArea(s: Size, sp: Spacing): nat
  {
    WorkWidth(s, sp) * WorkHeight(s, sp)
  }

  /** Candidate `i` is passed over without packing: too small, and not the last one. */
  predicate Skipped(sizes: seq<Size>, i: nat, area: nat, sp: Spacing)
    requires i < |sizes|
  {
    WorkArea(sizes[i], sp) < area && i + 1 < |sizes|
  }

  /** One packing attempt at candidate `index` of the texture size list. */
  datatype Attempt = Attempt(
    index: nat,
    candidate: Size,
    workW: nat,
    workH: nat,
    placed: seq<Placed>,
    unplaced: seq<Rect>)

  /** Every attempt packs the full remaining set (`glyphRectangles = glyphRectanglesCopy`). */
  function Try(sizes: seq<Size>, i: nat, sp: Spacing, rs: seq<Rect>, pack: Packer): Attempt
    requires i < |sizes|
  {
    var s := sizes[i];
    var w := WorkWidth(s, sp);
    var h := WorkHeight(s, sp);
    var out := pack(w, h, rs);
    Attempt(i, s, w, h, out.placed, out.unplaced)
  }

  lemma TryOk(sizes: seq<Size>, i: nat, sp: Spacing, rs: seq<Rect>, pack: Packer)
    requires ValidPacker(pack) && i < |sizes|
    ensures var a := Try(sizes, i, sp, rs, pack); PackingOk(a.workW, a.workH, rs, Packing(a.placed, a.unplaced))
  {
    var a := Try(sizes, i, sp, rs, pack);
    assert pack(a.workW, a.workH, rs) == Packing(a.placed, a.unplaced);
  }

  /**
   The inner loop over the candidate sizes from index `i` on; `last` is the attempt made
   before `i` (the loop keeps `lastSize` and the packer output of the latest attempt).
   The result is the first tried candidate that takes every rectangle, or else the last
   candidate, which is never skipped.
   */
  function Scan(sizes: seq<Size>, i: nat, area: nat, sp: Spacing, rs: seq<Rect>, pack: Packer,
                last: Option<Attempt>): (r: Option<Attempt>)
    requires i <= |sizes|
    ensures i == |sizes| ==> r == last
    ensures i < |sizes| ==> r.Some? && i <= r.value.index < |sizes|
    ensures i < |sizes| ==> !Skipped(sizes, r.value.index, area, sp)
    ensures i < |sizes| ==> r.value == Try(sizes, r.value.index, sp, rs, pack)
    ensures i < |sizes| ==> r.value.unplaced == [] || r.value.index == |sizes| - 1
    ensures i < |sizes| ==> forall k :: i <= k < r.value.index && !Skipped(sizes, k, area, sp) ==>
              Try(sizes, k, sp, rs, pack).unplaced != []
    decreases |sizes| - i
  {
    if i == |sizes| then last
    else if Skipped(sizes, i, area, sp) then Scan(sizes, i + 1, area, sp, rs, pack, last)
    else
      var a := Try(sizes, i, sp, rs, pack);
      if a.unplaced == [] then Some(a) else Scan(sizes, i + 1, area, sp, rs, pack, Some(a))
  }

  /** Where a placed rectangle puts its glyph: `r.x + spacing.hor`, as uint32. */
  function GlyphX(p: Placed, sp: Spacing): nat
  {
    ToU32(p.x + sp.hor)
  }

  function GlyphY(p: Placed, sp: Spacing): nat
  {
    ToU32(p.y + sp.ver)
  }

  /** `x + r.width` and `y + r.height`, as uint32. */
  function Right(p: Placed, sp: Spacing): nat
  {
    ToU32(GlyphX(p, sp) + p.width)
  }

  function Bottom(p: Placed, sp: Spacing): nat
  {
    ToU32(GlyphY(p, sp) + p.height)
  }

  /** The running maximum `maxX` / `maxY`, starting from 0. */
  function MaxEdge(ps: seq<Placed>, edge: Placed -> nat): (m: nat)
    ensures forall p :: p in ps ==> edge(p) <= m
    ensures m == 0 || exists p :: p in ps && m == edge(p)
  {
    if ps == [] then 0
    else
      var m := MaxEdge(ps[..|ps| - 1], edge);
      var e := edge(ps[|ps| - 1]);
      assert forall p :: p in ps ==> p in ps[..|ps| - 1] || p == ps[|ps| - 1];
      if m < e then e else m
  }

  /** The size written for a page: cropped to the placed glyphs, or the candidate size. */
  function PageSize(a: Attempt, c: LayoutConfig): Size
  {
    Size(
      if c.cropWidth then MaxEdge(a.placed, p => Right(p, c.spacing)) else a.candidate.w,
      if c.cropHeight then MaxEdge(a.placed, p => Bottom(p, c.spacing)) else a.candidate.h)
  }

  datatype Page = Page(attempt: Attempt, size: Size)

  /** The outer loop: one page per iteration until nothing is left. */
  function Plan(c: LayoutConfig, pack: Packer, rs: seq<Rect>): Result<seq<Page>>
    requires ValidPacker(pack)
    decreases |rs|
  {
    var found := Scan(c.textureSizes, 0, TotalArea(rs), c.spacing, rs, pack, None);
    if found.None? || found.value.placed == [] then
      var left := if found.None? then rs else found.value.unplaced;
      if left != [] then Err("can not fit glyphs into texture") else Ok([])
    else
      var a := found.value;
      TryOk(c.textureSizes, a.index, c.spacing, rs, pack);
      PlacingShrinks(a.workW, a.workH, rs, Packing(a.placed, a.unplaced));
      var rest :- Plan(c, pack, a.unplaced);
      Ok([Page(a, PageSize(a, c))] + rest)
  }

  // ---------------------------------------------------------------- assigning glyphs

  /** A placed rectangle together with the index of the page it is on. */
  datatype Slot = Slot(page: nat, placed: Placed)

  function PageSlots(ps: seq<Placed>, page: nat): (s: seq<Slot>)
    ensures |s| == |ps|
  {
    seq(|ps|, i requires 0 <= i < |ps| => Slot(page, ps[i]))
  }

  /** All placements, page by page and in packing order; page `first + k` is `pages[k]`. */
  function Slots(pages: seq<Page>, first: nat): (s: seq<Slot>)
    ensures forall i :: 0 <= i < |s| ==>
              first <= s[i].page < first + |pages| && s[i].placed in pages[s[i].page - first].attempt.placed
    ensures forall i, j :: 0 <= i < j < |s| ==> s[i].page <= s[j].page
    decreases |pages|
  {
    if pages == [] then []
    else
      var head := PageSlots(pages[0].attempt.placed, first);
      var rest := Slots(pages[1..], first + 1);
      assert forall i :: 0 <= i < |rest| ==> pages[1..][rest[i].page - (first + 1)] == pages[rest[i].page - first];
      head + rest
  }

  function SlotFootprints(s: seq<Slot>): (fs: seq<Rect>)
    ensures |fs| == |s|
  {
    seq(|s|, i requires 0 <= i < |s| => Footprint(s[i].placed))
  }

  function Moved(g: GlyphInfo, s: Slot, sp: Spacing): GlyphInfo
  {
    g.(x := GlyphX(s.placed, sp), y := GlyphY(s.placed, sp), page := s.page)
  }

  /** `glyphs[r.tag].x = ...; .y = ...; .page = ...` for one placement. */
  function Assign(t: seq<Entry>, s: Slot, sp: Spacing): (u: seq<Entry>)
    ensures |u| == |t| && forall j :: 0 <= j < |t| ==> u[j].key == t[j].key
  {
    seq(|t|, j requires 0 <= j < |t| =>
      if t[j].key == s.placed.tag then Entry(t[j].key, Moved(t[j].glyph, s, sp)) else t[j])
  }

  function AssignAll(t: seq<Entry>, s: seq<Slot>, sp: Spacing): (u: seq<Entry>)
    ensures |u| == |t| && forall j :: 0 <= j < |t| ==> u[j].key == t[j].key
    decreases |s|
  {
    if s == [] then t else AssignAll(Assign(t, s[0], sp), s[1..], sp)
  }

  datatype Arranged = Arranged(glyphs: seq<Entry>, pages: seq<Size>)

  function PageSizes(pages: seq<Page>): (sizes: seq<Size>)
    ensures |sizes| == |pages|
  {
    seq(|pages|, i requires 0 <= i < |pages| => pages[i].size)
  }

  /** `arrangeGlyphs`: the table with every packed glyph moved, and the page sizes. */
  function ArrangeGlyphs(t: seq<Entry>, c: LayoutConfig, pack: Packer): Result<Arranged>
    requires ValidPacker(pack) && AlignmentOk(c.alignment)
  {
    var rs := GlyphRectangles(t, ExtraWidth(c), ExtraHeight(c), c.alignment);
    var pages :- Plan(c, pack, rs);
    Ok(Arranged(AssignAll(t, Slots(pages, 0), c.spacing), PageSizes(pages)))
  }
}
