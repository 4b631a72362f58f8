/**
 What the page planner guarantees, for any packer that keeps the `ValidPacker` contract.
 */
module LayoutFacts {
  import opened Wrappers
  import opened MachineInts
  import opened Glyphs
  import opened Layout

  /** Everything `Plan` checks about one page it emits. */
  predicate PageOk(c: LayoutConfig, pg: Page)
  {
    var a := pg.attempt;
    a.index < |c.textureSizes| && a.candidate == c.textureSizes[a.index]
    && a.workW == WorkWidth(a.candidate, c.spacing) && a.workH == WorkHeight(a.candidate, c.spacing)
    && a.placed != []
    && (forall i :: 0 <= i < |a.placed| ==> InArea(a.placed[i], a.workW, a.workH))
    && (forall i, j :: 0 <= i < j < |a.placed| ==> Apart(a.placed[i], a.placed[j]))
    && pg.size == PageSize(a, c)
  }

  /** The attempt that one iteration of the outer loop commits to. */
  function Chosen(c: LayoutConfig, pack: Packer, rs: seq<Rect>): Option<Attempt>
  {
    Scan(c.textureSizes, 0, TotalArea(rs), c.spacing, rs, pack, None)
  }

  /** A packing that places nothing leaves every rectangle behind. */
  lemma NothingPlaced(w: nat, h: nat, rs: seq<Rect>, out: Packing)
    requires PackingOk(w, h, rs, out) && out.placed == []
    ensures multiset(out.unplaced) == multiset(rs) && |out.unplaced| == |rs|
  {
    assert Footprints(out.placed) == [];
  }

  /** One iteration of the outer loop, unfolded. */
  lemma PlanStep(c: LayoutConfig, pack: Packer, rs: seq<Rect>)
    requires ValidPacker(pack)
    ensures var f := Chosen(c, pack, rs);
            f.Some? ==> f.value.index < |c.textureSizes|
                        && f.value == Try(c.textureSizes, f.value.index, c.spacing, rs, pack)
                        && PackingOk(f.value.workW, f.value.workH, rs, Packing(f.value.placed, f.value.unplaced))
    ensures var f := Chosen(c, pack, rs);
            f.None? ==> c.textureSizes == [] && Plan(c, pack, rs) == if rs != [] then Err("can not fit glyphs into texture") else Ok([])
    ensures var f := Chosen(c, pack, rs);
            f.Some? && f.value.placed == [] ==>
              |f.value.unplaced| == |rs|
              && Plan(c, pack, rs) == if rs != [] then Err("can not fit glyphs into texture") else Ok([])
    ensures var f := Chosen(c, pack, rs);
            f.Some? && f.value.placed != [] ==>
              |f.value.unplaced| < |rs|
              && (Plan(c, pack, rs).Ok? <==> Plan(c, pack, f.value.unplaced).Ok?)
              && (Plan(c, pack, rs).Err? ==> Plan(c, pack, rs).msg == Plan(c, pack, f.value.unplaced).msg)
              && (Plan(c, pack, rs).Ok? ==>
                    Plan(c, pack, rs).value == [Page(f.value, PageSize(f.value, c))] + Plan(c, pack, f.value.unplaced).value)
  {
    var f := Chosen(c, pack, rs);
    if f.Some? {
      var a := f.value;
      TryOk(c.textureSizes, a.index, c.spacing, rs, pack);
      if a.placed == [] {
        NothingPlaced(a.workW, a.workH, rs, Packing(a.placed, a.unplaced));
      } else {
        PlacingShrinks(a.workW, a.workH, rs, Packing(a.placed, a.unplaced));
      }
    }
  }

  /** No rectangles: no pages, whatever the candidate list. */
  lemma PlanNoRects(c: LayoutConfig, pack: Packer)
    requires ValidPacker(pack)
    ensures Plan(c, pack, []) == Ok([])
  {
    PlanStep(c, pack, []);
  }

  /** The only failure of the planner is the one it throws when nothing more fits. */
  lemma {:induction false} PlanErrorMessage(c: LayoutConfig, pack: Packer, rs: seq<Rect>)
    requires ValidPacker(pack) && Plan(c, pack, rs).Err?
    ensures Plan(c, pack, rs).msg == "can not fit glyphs into texture"
    decreases |rs|
  {
    PlanStep(c, pack, rs);
    var f := Chosen(c, pack, rs);
    if f.Some? && f.value.placed != [] {
      PlanErrorMessage(c, pack, f.value.unplaced);
    }
  }

  /**
   The planner succeeds whenever the last (largest) candidate always takes at least one of
   any non-empty set of rectangles.
   */
  lemma {:induction false} PlanSucceedsWhenLastPlaces(c: LayoutConfig, pack: Packer, rs: seq<Rect>)
    requires ValidPacker(pack) && |c.textureSizes| > 0
    requires var last := c.textureSizes[|c.textureSizes| - 1];
             forall q: seq<Rect> :: q != [] ==>
               pack(WorkWidth(last, c.spacing), WorkHeight(last, c.spacing), q).placed != []
    ensures Plan(c, pack, rs).Ok?
    decreases |rs|
  {
    PlanStep(c, pack, rs);
    var a := Chosen(c, pack, rs).value;
    if a.placed != [] {
      PlanSucceedsWhenLastPlaces(c, pack, a.unplaced);
    }
  }

  lemma SlotFootprintsAppend(a: seq<Slot>, b: seq<Slot>)
    ensures SlotFootprints(a + b) == SlotFootprints(a) + SlotFootprints(b)
  {
  }

  lemma PageSlotFootprints(ps: seq<Placed>, page: nat)
    ensures SlotFootprints(PageSlots(ps, page)) == Footprints(ps)
  {
  }

  /** Adding one page to the pages that follow keeps every rectangle placed once. */
  lemma CoverStep(a: Attempt, size: Size, rest: seq<Page>, first: nat, rs: seq<Rect>)
    requires PackingOk(a.workW, a.workH, rs, Packing(a.placed, a.unplaced))
    requires multiset(SlotFootprints(Slots(rest, first + 1))) == multiset(a.unplaced)
    ensures multiset(SlotFootprints(Slots([Page(a, size)] + rest, first))) == multiset(rs)
  {
    var pages := [Page(a, size)] + rest;
    assert pages[1..] == rest;
    SlotFootprintsAppend(PageSlots(a.placed, first), Slots(rest, first + 1));
    PageSlotFootprints(a.placed, first);
  }

  /**
   The planner's invariant: over all pages, the placed footprints are a permutation of
   the input rectangles (each is placed exactly once), and each page is a valid packing
   of a listed candidate, never empty.
   */
  lemma {:induction false} PlanInvariant(c: LayoutConfig, pack: Packer, rs: seq<Rect>, first: nat)
    requires ValidPacker(pack) && Plan(c, pack, rs).Ok?
    ensures var pages := Plan(c, pack, rs).value;
            multiset(SlotFootprints(Slots(pages, first))) == multiset(rs)
            && forall i :: 0 <= i < |pages| ==> PageOk(c, pages[i])
    decreases |rs|
  {
    PlanStep(c, pack, rs);
    var f := Chosen(c, pack, rs);
    if f.Some? && f.value.placed != [] {
      var a := f.value;
      var rest := Plan(c, pack, a.unplaced).value;
      PlanInvariant(c, pack, a.unplaced, first + 1);
      CoverStep(a, PageSize(a, c), rest, first, rs);
      var pages := [Page(a, PageSize(a, c))] + rest;
      forall i | 0 <= i < |pages|
        ensures PageOk(c, pages[i])
      {
        if i > 0 {
          assert pages[i] == rest[i - 1];
        }
      }
    } else if f.Some? {
      NothingPlaced(f.value.workW, f.value.workH, rs, Packing(f.value.placed, f.value.unplaced));
    }
  }

  lemma MaxEdgeBound(ps: seq<Placed>, edge: Placed -> nat, bound: nat)
    requires forall p :: p in ps ==> edge(p) <= bound
    ensures MaxEdge(ps, edge) <= bound
  {
  }

  /**
   Given an in-bounds packer and a candidate no smaller than the spacing (so that no
   32-bit arithmetic wraps), a page is never larger than its candidate and every glyph
   on it lies inside the page, cropped or not.
   */
  lemma PageFitsCandidate(c: LayoutConfig, pg: Page)
    requires PageOk(c, pg)
    requires c.spacing.hor <= pg.attempt.candidate.w < TWO_32
    requires c.spacing.ver <= pg.attempt.candidate.h < TWO_32
    ensures pg.size.w <= pg.attempt.candidate.w && pg.size.h <= pg.attempt.candidate.h
    ensures forall p :: p in pg.attempt.placed ==>
              GlyphX(p, c.spacing) + p.width <= pg.size.w && GlyphY(p, c.spacing) + p.height <= pg.size.h
  {
    var a := pg.attempt;
    var sp := c.spacing;
    forall p | p in a.placed
      ensures Right(p, sp) == GlyphX(p, sp) + p.width <= a.candidate.w
      ensures Bottom(p, sp) == GlyphY(p, sp) + p.height <= a.candidate.h
    {
      var i :| 0 <= i < |a.placed| && a.placed[i] == p;
      assert InArea(a.placed[i], a.workW, a.workH);
    }
    MaxEdgeBound(a.placed, p => Right(p, sp), a.candidate.w);
    MaxEdgeBound(a.placed, p => Bottom(p, sp), a.candidate.h);
  }

  // ---------------------------------------------------------------- each glyph exactly once

  function TagsOf(rs: seq<Rect>): (ts: seq<nat>)
    ensures |ts| == |rs| && forall i :: 0 <= i < |rs| ==> ts[i] == rs[i].tag
  {
    seq(|rs|, i requires 0 <= i < |rs| => rs[i].tag)
  }

  lemma TagsOfAppend(a: seq<Rect>, b: seq<Rect>)
    ensures TagsOf(a + b) == TagsOf(a) + TagsOf(b)
  {
  }

  /** Permuting rectangles permutes their tags. */
  lemma {:induction false} TagsOfPermutation(a: seq<Rect>, b: seq<Rect>)
    requires multiset(a) == multiset(b)
    ensures multiset(TagsOf(a)) == multiset(TagsOf(b))
    decreases |a|
  {
    if a == [] {
      assert |b| == |multiset(b)| == 0;
    } else {
      var init := a[..|a| - 1];
      var x := a[|a| - 1];
      assert a == init + [x];
      assert x in multiset(b);
      var i :| 0 <= i < |b| && b[i] == x;
      var b' := b[..i] + b[i + 1..];
      assert b == b[..i] + [x] + b[i + 1..];
      assert multiset(b) == multiset(b[..i]) + multiset([x]) + multiset(b[i + 1..]);
      assert multiset(a) == multiset(init) + multiset([x]);
      assert multiset(b') == multiset(b[..i]) + multiset(b[i + 1..]);
      forall y
        ensures multiset(b')[y] == multiset(init)[y]
      {
        assert multiset(b)[y] == multiset(b[..i])[y] + multiset([x])[y] + multiset(b[i + 1..])[y];
        assert multiset(a)[y] == multiset(init)[y] + multiset([x])[y];
      }
      assert multiset(b') == multiset(init);
      TagsOfPermutation(init, b');
      TagsOfAppend(init, [x]);
      TagsOfAppend(b[..i] + [x], b[i + 1..]);
      TagsOfAppend(b[..i], [x]);
      TagsOfAppend(b[..i], b[i + 1..]);
    }
  }

  /** In a strictly increasing sequence every element occurs once. */
  lemma {:induction false} IncreasingOnce(s: seq<nat>, k: nat)
    requires forall i, j :: 0 <= i < j < |s| ==> s[i] < s[j]
    ensures multiset(s)[k] == if k in s then 1 else 0
  {
    if s != [] {
      assert s == [s[0]] + s[1..];
      IncreasingOnce(s[1..], k);
      assert s[0] !in s[1..];
    }
  }

  function SlotTags(s: seq<Slot>): (ts: seq<nat>)
    ensures |ts| == |s| && forall i :: 0 <= i < |s| ==> ts[i] == s[i].placed.tag
  {
    TagsOf(SlotFootprints(s))
  }

  /** The effect of the sequence of assignments on one table entry. */
  lemma {:induction false} AssignAllEffect(t: seq<Entry>, s: seq<Slot>, sp: Spacing, j: nat)
    requires j < |t|
    ensures multiset(SlotTags(s))[t[j].key] == 0 ==> AssignAll(t, s, sp)[j] == t[j]
    ensures multiset(SlotTags(s))[t[j].key] == 1 ==>
              exists i :: 0 <= i < |s| && s[i].placed.tag == t[j].key
                          && AssignAll(t, s, sp)[j] == Entry(t[j].key, Moved(t[j].glyph, s[i], sp))
    decreases |s|
  {
    if s != [] {
      var t' := Assign(t, s[0], sp);
      assert SlotTags(s) == [s[0].placed.tag] + SlotTags(s[1..]);
      AssignAllEffect(t', s[1..], sp, j);
      if multiset(SlotTags(s))[t[j].key] == 1 && s[0].placed.tag != t[j].key {
        var i :| 0 <= i < |s[1..]| && s[1..][i].placed.tag == t[j].key
                 && AssignAll(t', s[1..], sp)[j] == Entry(t[j].key, Moved(t[j].glyph, s[1..][i], sp));
        assert s[i + 1] == s[1..][i];
      }
    }
  }

  /** A key of a sorted table that is not the key of a non-empty glyph gets no rectangle. */
  lemma EmptyGlyphNoRect(t: seq<Entry>, c: LayoutConfig, j: nat)
    requires AlignmentOk(c.alignment) && KeysSorted(t) && j < |t| && IsEmpty(t[j].glyph)
    ensures t[j].key !in TagsOf(GlyphRectangles(t, ExtraWidth(c), ExtraHeight(c), c.alignment))
  {
    var rs := GlyphRectangles(t, ExtraWidth(c), ExtraHeight(c), c.alignment);
    forall i | 0 <= i < |rs|
      ensures rs[i].tag != t[j].key
    {
      assert rs[i] in rs;
      var e :| e in t && !IsEmpty(e.glyph) && rs[i] == RectOf(e, ExtraWidth(c), ExtraHeight(c), c.alignment);
      var m :| 0 <= m < |t| && t[m] == e;
      if m == j {
        assert false;
      }
    }
  }

  /**
   `arrangeGlyphs` moves every non-empty glyph exactly once, to the position and page of
   the one placement that carries its key, and leaves every empty glyph untouched.
   */
  lemma ArrangeGlyphsPlacesEachGlyphOnce(t: seq<Entry>, c: LayoutConfig, pack: Packer)
    requires ValidPacker(pack) && AlignmentOk(c.alignment) && KeysSorted(t)
    requires Plan(c, pack, GlyphRectangles(t, ExtraWidth(c), ExtraHeight(c), c.alignment)).Ok?
    ensures ArrangeGlyphs(t, c, pack).Ok?
    ensures var pages := Plan(c, pack, GlyphRectangles(t, ExtraWidth(c), ExtraHeight(c), c.alignment)).value;
            var s := Slots(pages, 0);
            var out := ArrangeGlyphs(t, c, pack).value.glyphs;
            |out| == |t|
            && forall j :: 0 <= j < |t| ==>
                 out[j].key == t[j].key
                 && (IsEmpty(t[j].glyph) ==> out[j] == t[j])
                 && (!IsEmpty(t[j].glyph) ==>
                       multiset(SlotTags(s))[t[j].key] == 1
                       && exists i :: 0 <= i < |s| && s[i].placed.tag == t[j].key
                                     && out[j].glyph == Moved(t[j].glyph, s[i], c.spacing))
  {
    var rs := GlyphRectangles(t, ExtraWidth(c), ExtraHeight(c), c.alignment);
    var pages := Plan(c, pack, rs).value;
    var s := Slots(pages, 0);
    PlanInvariant(c, pack, rs, 0);
    TagsOfPermutation(SlotFootprints(s), rs);
    forall j | 0 <= j < |t|
      ensures IsEmpty(t[j].glyph) ==> AssignAll(t, s, c.spacing)[j] == t[j]
      ensures !IsEmpty(t[j].glyph) ==>
                multiset(SlotTags(s))[t[j].key] == 1
                && exists i :: 0 <= i < |s| && s[i].placed.tag == t[j].key
                              && AssignAll(t, s, c.spacing)[j].glyph == Moved(t[j].glyph, s[i], c.spacing)
    {
      IncreasingOnce(TagsOf(rs), t[j].key);
      AssignAllEffect(t, s, c.spacing, j);
      if IsEmpty(t[j].glyph) {
        EmptyGlyphNoRect(t, c, j);
      } else {
        assert t[j] in t;
        var r := RectOf(t[j], ExtraWidth(c), ExtraHeight(c), c.alignment);
        var i :| 0 <= i < |rs| && rs[i] == r;
        assert TagsOf(rs)[i] == t[j].key;
      }
    }
  }
}
