/** The backend-independent draw-list compiler of `src/helper.rs`: the framebuffer
    size, the clip-rectangle transform and culling, the scissor and display
    rectangles, and `DrawParamsIterator`.

    `Steps` is the reference sequence: every command of every list, in order, each
    contributing its draw call (`Item`) or its side effect (`Side`: the warning of
    `ResetRenderState`, the invocation of a `RawCallback`). `Next`/`Drain` follow the
    source's `next()` step by step, under two policies for the unsupported commands:
    `EndIteration` is the code as written (`break match` returns `None`, which ends
    the caller's `for` loop), `SkipCommand` is the evidently intended "emit nothing
    and go on". `ForLoopSkipMatchesSteps` proves the second equal to `Steps`; the
    renderers consume the first, `Visited(d)`, which `ForLoopAsWrittenTruncates`
    pins to `UpToFirstSide(Steps(d))`. */
module DrawIter {
  import opened Base
  import opened Geometry
  import opened Draw

  /** The values `DrawParamsIterator::new` fixes for the whole frame. */
  datatype Frame = Frame(fbWidth: real, fbHeight: real, clipOff: Vec2, clipScale: Vec2, display: Rect)

  function FrameOf(d: DrawData): Frame {
    Frame(
      d.displaySize.x * d.framebufferScale.x,
      d.displaySize.y * d.framebufferScale.y,
      d.displayPos,
      d.framebufferScale,
      Rect(d.displayPos.x, d.displayPos.y + d.displaySize.y, d.displayPos.x + d.displaySize.x, d.displayPos.y))
  }

  /** A minimised window: nothing is drawn. */
  predicate Degenerate(f: Frame) {
    f.fbWidth <= 0.0 || f.fbHeight <= 0.0
  }

  /** `(clip - display_pos) * framebuffer_scale`, component-wise. */
  function TransformClip(c: ClipRect, off: Vec2, scale: Vec2): ClipRect {
    ClipRect((c.x - off.x) * scale.x, (c.y - off.y) * scale.y, (c.z - off.x) * scale.x, (c.w - off.y) * scale.y)
  }

  /** The command lies wholly outside the framebuffer. */
  predicate Culled(f: Frame, c: ClipRect) {
    var t := TransformClip(c, f.clipOff, f.clipScale);
    t.x >= f.fbWidth || t.y >= f.fbHeight || t.z < 0.0 || t.w < 0.0
  }

  /** The scissor `Rect` of a command: a lower-left corner in framebuffer pixels in
      `left`/`top`, the extents in `right`/`bottom`. */
  function ScissorOf(f: Frame, c: ClipRect): Rect {
    Rect(c.x * f.clipScale.x, f.fbHeight - c.w * f.clipScale.y, (c.z - c.x) * f.clipScale.x, (c.w - c.y) * f.clipScale.y)
  }

  function ParamsOf(f: Frame, list: DrawList, cmd: DrawCmd): DrawParams
    requires cmd.Elements?
  {
    DrawParams(f.display, list.vtxBuffer, cmd.vtxOffset, list.idxBuffer, cmd.idxOffset, cmd.count, cmd.textureId,
               ScissorOf(f, cmd.clip))
  }

  /** Side effects of the unsupported commands: a logged warning, or the call of the
      raw callback with the index of its draw list and its user data. */
  datatype Hook = ResetWarned | CallbackRan(list: nat, userData: nat)

  datatype Step = Item(params: DrawParams) | Side(hook: Hook)

  // ---------------------------------------------------------------------------
  // Reference sequence

  function CommandSteps(f: Frame, list: DrawList, li: nat, cmd: DrawCmd): seq<Step> {
    match cmd
    case Elements(_, clip, _, _, _) => if Culled(f, clip) then [] else [Item(ParamsOf(f, list, cmd))]
    case ResetRenderState => [Side(ResetWarned)]
    case RawCallback(u) => [Side(CallbackRan(li, u))]
  }

  function CommandsSteps(f: Frame, list: DrawList, li: nat, cmds: seq<DrawCmd>): seq<Step>
    decreases |cmds|
  {
    if |cmds| == 0 then [] else CommandSteps(f, list, li, cmds[0]) + CommandsSteps(f, list, li, cmds[1..])
  }

  /** The steps of `lists`, whose first list has index `base` in the frame. */
  function ListsSteps(f: Frame, lists: seq<DrawList>, base: nat): seq<Step>
    decreases |lists|
  {
    if |lists| == 0 then []
    else CommandsSteps(f, lists[0], base, lists[0].commands) + ListsSteps(f, lists[1..], base + 1)
  }

  function Steps(d: DrawData): seq<Step> {
    var f := FrameOf(d);
    if Degenerate(f) then [] else ListsSteps(f, d.lists, 0)
  }

  function Items(steps: seq<Step>): seq<DrawParams>
    decreases |steps|
  {
    if |steps| == 0 then []
    else (match steps[0] case Item(p) => [p] case Side(_) => []) + Items(steps[1..])
  }

  /** The draw calls of a frame, in order. */
  function Params(d: DrawData): seq<DrawParams> {
    Items(Steps(d))
  }

  function Sides(hooks: seq<Hook>): seq<Step>
    decreases |hooks|
  {
    if |hooks| == 0 then [] else [Side(hooks[0])] + Sides(hooks[1..])
  }

  function ItemSeq(o: Option<DrawParams>): seq<Step> {
    match o
    case None => []
    case Some(p) => [Item(p)]
  }

  // ---------------------------------------------------------------------------
  // The iterator state machine

  /** The next command to read: list index and command index within that list. */
  datatype Pos = Pos(list: nat, cmd: nat)

  /** `DrawParamsIterator`'s mutable part: how many lists `draw_lists` has handed
      out, and the command iterator of the current list (absent for a degenerate
      frame or a frame without lists). */
  datatype Cursor = Cursor(nextList: nat, commands: Option<Pos>)

  datatype Policy = EndIteration | SkipCommand

  /** The result of one `next()` call: side effects performed, item returned, new state. */
  datatype Pulled = Pulled(hooks: seq<Hook>, item: Option<DrawParams>, cursor: Cursor)

  predicate Valid(d: DrawData, c: Cursor) {
    && c.nextList <= |d.lists|
    && (c.commands.Some? ==>
          && c.commands.value.list + 1 == c.nextList
          && c.commands.value.cmd <= |d.lists[c.commands.value.list].commands|)
  }

  function CmdsLeft(d: DrawData, c: Cursor): nat
    requires Valid(d, c)
  {
    match c.commands
    case None => 0
    case Some(p) => |d.lists[p.list].commands| - p.cmd
  }

  /** Commands of the lists from index `i` on. */
  function TotalFrom(lists: seq<DrawList>, i: nat): nat
    decreases |lists| - i
  {
    if i >= |lists| then 0 else |lists[i].commands| + TotalFrom(lists, i + 1)
  }

  /** Commands not yet read. */
  function Remaining(d: DrawData, c: Cursor): nat
    requires Valid(d, c)
  {
    CmdsLeft(d, c) + TotalFrom(d.lists, c.nextList)
  }

  /** `DrawParamsIterator::new`. */
  function Start(d: DrawData): (c: Cursor)
    ensures Valid(d, c)
  {
    if Degenerate(FrameOf(d)) || |d.lists| == 0 then Cursor(0, None) else Cursor(1, Some(Pos(0, 0)))
  }

  /** One turn of the `loop` inside `DrawParamsIterator::next`: what it performs,
      what it returns if it returns, and where it leaves the iterator. */
  datatype Tick = Tick(hooks: seq<Hook>, item: Option<DrawParams>, cursor: Cursor, stop: bool)

  /** Lexicographic progress: a further list, or fewer commands left in this one. */
  predicate Progress(d: DrawData, c: Cursor, c': Cursor)
    requires Valid(d, c) && Valid(d, c')
  {
    c'.nextList > c.nextList || (c'.nextList == c.nextList && CmdsLeft(d, c') < CmdsLeft(d, c))
  }

  function Advance(d: DrawData, policy: Policy, c: Cursor): (t: Tick)
    requires Valid(d, c)
    ensures Valid(d, t.cursor)
    ensures Remaining(d, t.cursor) <= Remaining(d, c)
    ensures t.item.Some? ==> t.stop && Remaining(d, t.cursor) < Remaining(d, c)
    ensures !t.stop ==> Progress(d, c, t.cursor)
  {
    match c.commands
    case None => Tick([], None, c, true)
    case Some(p) =>
      var cmds := d.lists[p.list].commands;
      if p.cmd < |cmds| then
        var c' := Cursor(c.nextList, Some(Pos(p.list, p.cmd + 1)));
        match cmds[p.cmd]
        case Elements(_, clip, _, _, _) =>
          if Culled(FrameOf(d), clip) then Tick([], None, c', false)
          else Tick([], Some(ParamsOf(FrameOf(d), d.lists[p.list], cmds[p.cmd])), c', true)
        case ResetRenderState => Tick([ResetWarned], None, c', policy.EndIteration?)
        case RawCallback(u) => Tick([CallbackRan(p.list, u)], None, c', policy.EndIteration?)
      else if c.nextList < |d.lists| then
        Tick([], None, Cursor(c.nextList + 1, Some(Pos(c.nextList, 0))), false)
      else
        Tick([], None, c, true)
  }

  /** `DrawParamsIterator::next`: culled commands are passed over, an exhausted list
      is replaced by the next one, and an item is returned only after a command has
      been consumed. */
  function Next(d: DrawData, policy: Policy, c: Cursor): (r: Pulled)
    requires Valid(d, c)
    ensures Valid(d, r.cursor)
    ensures Remaining(d, r.cursor) <= Remaining(d, c)
    ensures r.item.Some? ==> Remaining(d, r.cursor) < Remaining(d, c)
    decreases |d.lists| - c.nextList, CmdsLeft(d, c)
  {
    var t := Advance(d, policy, c);
    if t.stop then Pulled(t.hooks, t.item, t.cursor)
    else
      var r := Next(d, policy, t.cursor);
      Pulled(t.hooks + r.hooks, r.item, r.cursor)
  }

  /** A `for` loop over the iterator from state `c`: it stops at the first `None`. */
  function Drain(d: DrawData, policy: Policy, c: Cursor): seq<Step>
    requires Valid(d, c)
    decreases Remaining(d, c)
  {
    var r := Next(d, policy, c);
    Sides(r.hooks) + (match r.item case None => [] case Some(p) => [Item(p)] + Drain(d, policy, r.cursor))
  }

  /** `for params in DrawParamsIterator::new(draw_data)`. */
  function ForLoop(d: DrawData, policy: Policy): seq<Step> {
    Drain(d, policy, Start(d))
  }

  // ---------------------------------------------------------------------------
  // The state machine against the reference sequence

  /** The steps of commands `j..` of list `li`, index by index. */
  function CommandsFrom(f: Frame, list: DrawList, li: nat, j: nat): seq<Step>
    decreases |list.commands| - j
  {
    if j >= |list.commands| then [] else CommandSteps(f, list, li, list.commands[j]) + CommandsFrom(f, list, li, j + 1)
  }

  /** The steps of lists `i..`, index by index. */
  function ListsFrom(f: Frame, lists: seq<DrawList>, i: nat): seq<Step>
    decreases |lists| - i
  {
    if i >= |lists| then [] else CommandsFrom(f, lists[i], i, 0) + ListsFrom(f, lists, i + 1)
  }

  lemma {:induction false} CommandsFromIsSuffix(f: Frame, list: DrawList, li: nat, j: nat)
    requires j <= |list.commands|
    ensures CommandsFrom(f, list, li, j) == CommandsSteps(f, list, li, list.commands[j..])
    decreases |list.commands| - j
  {
    if j < |list.commands| {
      assert list.commands[j..][1..] == list.commands[j + 1..];
      CommandsFromIsSuffix(f, list, li, j + 1);
    }
  }

  lemma {:induction false} ListsFromIsSuffix(f: Frame, lists: seq<DrawList>, i: nat)
    requires i <= |lists|
    ensures ListsFrom(f, lists, i) == ListsSteps(f, lists[i..], i)
    decreases |lists| - i
  {
    if i < |lists| {
      assert lists[i..][1..] == lists[i + 1..];
      assert lists[i].commands[0..] == lists[i].commands;
      CommandsFromIsSuffix(f, lists[i], i, 0);
      ListsFromIsSuffix(f, lists, i + 1);
    }
  }

  /** What the reference sequence still holds from state `c`. Without a command
      iterator (a degenerate frame, or one without lists) `next()` returns `None`
      at once, and nothing is left. */
  ghost function Rest(d: DrawData, c: Cursor): seq<Step>
    requires Valid(d, c)
  {
    match c.commands
    case None => []
    case Some(p) =>
      var f := FrameOf(d);
      CommandsFrom(f, d.lists[p.list], p.list, p.cmd) + ListsFrom(f, d.lists, c.nextList)
  }

  /** Reading command `p.cmd` of the current list moves that command's steps out
      of `Rest`. */
  lemma RestAfterCommand(d: DrawData, c: Cursor)
    requires Valid(d, c) && c.commands.Some?
    requires c.commands.value.cmd < |d.lists[c.commands.value.list].commands|
    ensures var p := c.commands.value;
      var c' := Cursor(c.nextList, Some(Pos(p.list, p.cmd + 1)));
      && Valid(d, c')
      && Rest(d, c) == CommandSteps(FrameOf(d), d.lists[p.list], p.list, d.lists[p.list].commands[p.cmd]) + Rest(d, c')
  {
  }

  /** Fetching the next list once the current one is exhausted leaves `Rest` as it was. */
  lemma RestAfterListSwitch(d: DrawData, c: Cursor)
    requires Valid(d, c) && c.commands.Some?
    requires c.commands.value.cmd == |d.lists[c.commands.value.list].commands|
    requires c.nextList < |d.lists|
    ensures var c' := Cursor(c.nextList + 1, Some(Pos(c.nextList, 0)));
      Valid(d, c') && Rest(d, c) == Rest(d, c')
  {
  }

  lemma RestAtEnd(d: DrawData, c: Cursor)
    requires Valid(d, c) && c.nextList == |d.lists|
    requires c.commands.Some? ==> c.commands.value.cmd == |d.lists[c.commands.value.list].commands|
    ensures Rest(d, c) == []
  {
  }

  /** The reference sequence is what remains before the first `next()`. */
  lemma RestAtStart(d: DrawData)
    ensures Rest(d, Start(d)) == Steps(d)
  {
    ListsFromIsSuffix(FrameOf(d), d.lists, 0);
    assert d.lists[0..] == d.lists;
  }

  lemma {:induction false} SidesConcat(a: seq<Hook>, b: seq<Hook>)
    ensures Sides(a + b) == Sides(a) + Sides(b)
    decreases |a|
  {
    if |a| > 0 {
      assert (a + b)[1..] == a[1..] + b;
      SidesConcat(a[1..], b);
    } else {
      assert a + b == b;
    }
  }

  /** One turn of the loop moves exactly its side effects and its item out of
      `Rest`; it performs at most one side effect, and under `EndIteration` one
      that does ends the call. */
  lemma AdvanceFollowsReference(d: DrawData, policy: Policy, c: Cursor)
    requires Valid(d, c)
    ensures var t := Advance(d, policy, c);
      && Valid(d, t.cursor)
      && Rest(d, c) == Sides(t.hooks) + ItemSeq(t.item) + Rest(d, t.cursor)
      && |t.hooks| <= 1
      && (t.stop && t.item.None? && (policy.SkipCommand? || t.hooks == []) ==> Rest(d, t.cursor) == [])
      && (policy.EndIteration? && t.hooks != [] ==> t.stop && t.item.None?)
  {
    match c.commands
    case None =>
    case Some(p) =>
      var cmds := d.lists[p.list].commands;
      if p.cmd < |cmds| {
        RestAfterCommand(d, c);
        var c' := Cursor(c.nextList, Some(Pos(p.list, p.cmd + 1)));
        var t := Advance(d, policy, c);
        assert t.cursor == c';
        assert Sides(t.hooks) + ItemSeq(t.item) == CommandSteps(FrameOf(d), d.lists[p.list], p.list, cmds[p.cmd]);
      } else if c.nextList < |d.lists| {
        RestAfterListSwitch(d, c);
      } else {
        RestAtEnd(d, c);
      }
  }

  /** One `next()` call produces exactly the next stretch of the reference sequence;
      under `SkipCommand` it returns `None` only at the end of the frame, under
      `EndIteration` a side effect is always the last thing a call does. */
  lemma {:induction false} NextFollowsReference(d: DrawData, policy: Policy, c: Cursor)
    requires Valid(d, c)
    ensures var r := Next(d, policy, c);
      && Rest(d, c) == Sides(r.hooks) + ItemSeq(r.item) + Rest(d, r.cursor)
      && (r.item.None? && (policy.SkipCommand? || r.hooks == []) ==> Rest(d, r.cursor) == [])
      && (policy.EndIteration? ==> r.hooks == [] || (|r.hooks| == 1 && r.item.None?))
    decreases |d.lists| - c.nextList, CmdsLeft(d, c)
  {
    var t := Advance(d, policy, c);
    AdvanceFollowsReference(d, policy, c);
    if !t.stop {
      var r := Next(d, policy, t.cursor);
      NextFollowsReference(d, policy, t.cursor);
      assert Next(d, policy, c) == Pulled(t.hooks + r.hooks, r.item, r.cursor);
      Regroup(t.hooks, r.hooks, ItemSeq(r.item), Rest(d, c), Rest(d, t.cursor), Rest(d, r.cursor));
    }
  }

  /** Two consecutive stretches of side effects, the first without an item, make one. */
  lemma Regroup(h1: seq<Hook>, h2: seq<Hook>, x: seq<Step>, r0: seq<Step>, r1: seq<Step>, r2: seq<Step>)
    requires r0 == Sides(h1) + [] + r1
    requires r1 == Sides(h2) + x + r2
    ensures r0 == Sides(h1 + h2) + x + r2
  {
    SidesConcat(h1, h2);
  }

  lemma DrainUnfold(d: DrawData, policy: Policy, c: Cursor)
    requires Valid(d, c)
    ensures var r := Next(d, policy, c);
      && (r.item.None? ==> Drain(d, policy, c) == Sides(r.hooks))
      && (r.item.Some? ==> Drain(d, policy, c) == Sides(r.hooks) + ItemSeq(r.item) + Drain(d, policy, r.cursor))
  {
  }

  lemma {:induction false} DrainSkipIsRest(d: DrawData, c: Cursor)
    requires Valid(d, c)
    ensures Drain(d, SkipCommand, c) == Rest(d, c)
    decreases Remaining(d, c)
  {
    var r := Next(d, SkipCommand, c);
    NextFollowsReference(d, SkipCommand, c);
    DrainUnfold(d, SkipCommand, c);
    if r.item.Some? {
      DrainSkipIsRest(d, r.cursor);
    } else {
      assert Sides(r.hooks) + ItemSeq(r.item) + [] == Sides(r.hooks);
    }
  }

  /** The steps of `s` up to and including its first side effect; all of `s` when
      it has none. */
  function UpToFirstSide(s: seq<Step>): seq<Step>
    decreases |s|
  {
    if |s| == 0 then []
    else if s[0].Side? then [s[0]]
    else [s[0]] + UpToFirstSide(s[1..])
  }

  predicate AllItems(s: seq<Step>) {
    forall i :: 0 <= i < |s| ==> s[i].Item?
  }

  /** Step `j` is the first side effect of `s`. */
  predicate FirstSideAt(s: seq<Step>, j: int) {
    0 <= j < |s| && s[j].Side? && forall i :: 0 <= i < j ==> s[i].Item?
  }

  /** `UpToFirstSide` by index: a sequence without side effects is kept whole; one
      whose first side effect is at `j` is cut after `j`. */
  lemma {:induction false} UpToFirstSideCut(s: seq<Step>)
    ensures UpToFirstSide(s) <= s
    ensures AllItems(s) ==> UpToFirstSide(s) == s
    ensures forall j :: FirstSideAt(s, j) ==> UpToFirstSide(s) == s[..j + 1]
    decreases |s|
  {
    if |s| > 0 {
      var t := s[1..];
      assert s == [s[0]] + t;
      if s[0].Side? {
        forall j | FirstSideAt(s, j)
          ensures UpToFirstSide(s) == s[..j + 1]
        {
          assert j == 0;
        }
      } else {
        UpToFirstSideCut(t);
        if AllItems(s) {
          assert AllItems(t) by {
            forall i | 0 <= i < |t| ensures t[i].Item? { assert t[i] == s[i + 1]; }
          }
        }
        forall j | FirstSideAt(s, j)
          ensures UpToFirstSide(s) == s[..j + 1]
        {
          assert FirstSideAt(t, j - 1) by {
            forall i | 0 <= i < j - 1 ensures t[i].Item? { assert t[i] == s[i + 1]; }
          }
          assert s[..j + 1] == [s[0]] + t[..j];
        }
      }
    }
  }

  /** One `next()` of the code as written, against the cut: a draw call is passed
      over, a side effect ends the cut, and `None` without a side effect comes only
      once nothing is left. */
  lemma CutAfterNext(rest: seq<Step>, drained: seq<Step>, hooks: seq<Hook>, item: Option<DrawParams>, tail: seq<Step>, drainedTail: seq<Step>)
    requires rest == Sides(hooks) + ItemSeq(item) + tail
    requires hooks == [] || (|hooks| == 1 && item.None?)
    requires item.None? && hooks == [] ==> tail == []
    requires item.None? ==> drained == Sides(hooks)
    requires item.Some? ==> drained == ItemSeq(item) + drainedTail && drainedTail == UpToFirstSide(tail)
    ensures drained == UpToFirstSide(rest)
  {
    if item.Some? {
      assert rest == [Item(item.value)] + tail;
      assert rest[1..] == tail;
    } else if hooks != [] {
      assert hooks == [hooks[0]];
      assert Sides(hooks) == [Side(hooks[0])];
      assert rest == [Side(hooks[0])] + tail;
    }
  }

  /** As written, iterating from any state yields what is left of the reference
      sequence up to and including its first side effect. */
  lemma {:induction false} DrainEndTruncatesRest(d: DrawData, c: Cursor)
    requires Valid(d, c)
    ensures Drain(d, EndIteration, c) == UpToFirstSide(Rest(d, c))
    decreases Remaining(d, c)
  {
    var r := Next(d, EndIteration, c);
    NextFollowsReference(d, EndIteration, c);
    DrainUnfold(d, EndIteration, c);
    if r.item.Some? {
      DrainEndTruncatesRest(d, r.cursor);
      CutAfterNext(Rest(d, c), Drain(d, EndIteration, c), r.hooks, r.item, Rest(d, r.cursor), Drain(d, EndIteration, r.cursor));
    } else {
      CutAfterNext(Rest(d, c), Drain(d, EndIteration, c), r.hooks, r.item, Rest(d, r.cursor), []);
    }
  }

  // ---------------------------------------------------------------------------
  // Properties of the iterator

  /** With unsupported commands skipped, the iterator yields exactly the reference
      sequence. */
  lemma ForLoopSkipMatchesSteps(d: DrawData)
    ensures ForLoop(d, SkipCommand) == Steps(d)
  {
    RestAtStart(d);
    DrainSkipIsRest(d, Start(d));
  }

  /** As written, the `for` loop sees the reference sequence up to and including
      its first `ResetRenderState`/`RawCallback` side effect, and nothing after it;
      a frame without these commands is seen whole. */
  lemma ForLoopAsWrittenTruncates(d: DrawData)
    ensures ForLoop(d, EndIteration) == UpToFirstSide(Steps(d))
    ensures AllItems(Steps(d)) ==> ForLoop(d, EndIteration) == Steps(d)
    ensures forall j :: FirstSideAt(Steps(d), j) ==> ForLoop(d, EndIteration) == Steps(d)[..j + 1]
  {
    RestAtStart(d);
    DrainEndTruncatesRest(d, Start(d));
    UpToFirstSideCut(Steps(d));
  }

  predicate ElementsOnly(d: DrawData) {
    forall i, j :: 0 <= i < |d.lists| && 0 <= j < |d.lists[i].commands| ==> d.lists[i].commands[j].Elements?
  }

  /** On frames without unsupported commands the code as written and the intended
      iteration agree. */
  lemma ForLoopAsWrittenAgreesOnElementsOnly(d: DrawData)
    requires ElementsOnly(d)
    ensures ForLoop(d, EndIteration) == Steps(d)
  {
    var s := Steps(d);
    forall i | 0 <= i < |s|
      ensures s[i].Item?
    {
      ElementsOnlyHasNoSides(d, s[i]);
    }
    ForLoopAsWrittenTruncates(d);
  }

  /** The side effects among `steps`, in order. */
  function HooksOf(steps: seq<Step>): seq<Hook>
    decreases |steps|
  {
    if |steps| == 0 then []
    else (match steps[0] case Side(h) => [h] case Item(_) => []) + HooksOf(steps[1..])
  }

  // ---------------------------------------------------------------------------
  // What the renderers' `for` loops see

  /** `for params in DrawParamsIterator::new(draw_data)` as written. */
  function Visited(d: DrawData): seq<Step> {
    ForLoop(d, EndIteration)
  }

  /** The draw calls that loop hands to `draw`, in order. */
  function VisitedParams(d: DrawData): seq<DrawParams> {
    Items(Visited(d))
  }

  lemma ItemsOfSide(s: seq<Step>, j: int)
    requires 0 <= j < |s| && s[j].Side?
    ensures Items(s[..j + 1]) == Items(s[..j])
  {
    assert s[..j + 1] == s[..j] + [s[j]];
    ItemsConcat(s[..j], [s[j]]);
    assert Items([s[j]]) == Items([s[j]][1..]);
  }

  /** The loop as written hands out a prefix of the frame's draw calls: those
      before the first unsupported command, or all of them when there is none. */
  lemma VisitedParamsPrefix(d: DrawData)
    ensures VisitedParams(d) <= Params(d)
    ensures AllItems(Steps(d)) ==> VisitedParams(d) == Params(d)
    ensures forall j :: FirstSideAt(Steps(d), j) ==> VisitedParams(d) == Items(Steps(d)[..j])
  {
    var s := Steps(d);
    ForLoopAsWrittenTruncates(d);
    UpToFirstSideCut(s);
    var v := Visited(d);
    assert s == v + s[|v|..];
    ItemsConcat(v, s[|v|..]);
    forall j | FirstSideAt(s, j)
      ensures VisitedParams(d) == Items(s[..j])
    {
      ItemsOfSide(s, j);
    }
  }

  /** The loop as written performs at most one side effect: that of the frame's
      first unsupported command, if there is one. */
  lemma VisitedHooks(d: DrawData)
    ensures |HooksOf(Visited(d))| <= 1
    ensures AllItems(Steps(d)) ==> HooksOf(Visited(d)) == []
    ensures forall j :: FirstSideAt(Steps(d), j) ==> HooksOf(Visited(d)) == [Steps(d)[j].hook]
  {
    ForLoopAsWrittenTruncates(d);
    HooksUpToFirstSide(Steps(d));
  }

  lemma {:induction false} HooksUpToFirstSide(s: seq<Step>)
    ensures |HooksOf(UpToFirstSide(s))| <= 1
    ensures AllItems(s) ==> HooksOf(UpToFirstSide(s)) == []
    ensures forall j :: FirstSideAt(s, j) ==> HooksOf(UpToFirstSide(s)) == [s[j].hook]
    decreases |s|
  {
    if |s| > 0 {
      if s[0].Side? {
        assert HooksOf([s[0]]) == [s[0].hook] + HooksOf([s[0]][1..]);
        forall j | FirstSideAt(s, j)
          ensures HooksOf(UpToFirstSide(s)) == [s[j].hook]
        {
          assert j == 0;
        }
      } else {
        var t := s[1..];
        HooksUpToFirstSide(t);
        assert UpToFirstSide(s)[1..] == UpToFirstSide(t);
        if AllItems(s) {
          assert AllItems(t) by {
            forall i | 0 <= i < |t| ensures t[i].Item? { assert t[i] == s[i + 1]; }
          }
        }
        forall j | FirstSideAt(s, j)
          ensures HooksOf(UpToFirstSide(s)) == [s[j].hook]
        {
          assert FirstSideAt(t, j - 1) by {
            forall i | 0 <= i < j - 1 ensures t[i].Item? { assert t[i] == s[i + 1]; }
          }
        }
      }
    }
  }

  lemma ElementsOnlyHasNoSides(d: DrawData, s: Step)
    requires ElementsOnly(d) && s in Steps(d)
    ensures s.Item?
  {
    StepsMembership(d, s);
    var i, j :| StepAt(FrameOf(d), d.lists, 0, i, j, s);
    assert d.lists[i].commands[j].Elements?;
  }

  /** A visible frame whose only draw list runs a raw callback with user data `u`
      and then draws with `cmd`, which is not culled. */
  predicate CallbackThenDraw(d: DrawData, u: nat, cmd: DrawCmd) {
    && !Degenerate(FrameOf(d))
    && |d.lists| == 1
    && d.lists[0].commands == [RawCallback(u), cmd]
    && cmd.Elements?
    && !Culled(FrameOf(d), cmd.clip)
  }

  /** The steps of a single list of two commands. */
  lemma OneListTwoCommands(f: Frame, lists: seq<DrawList>)
    requires |lists| == 1 && |lists[0].commands| == 2
    ensures ListsSteps(f, lists, 0)
      == CommandSteps(f, lists[0], 0, lists[0].commands[0]) + CommandSteps(f, lists[0], 0, lists[0].commands[1])
  {
    var l := lists[0];
    var cmds := l.commands;
    assert lists[1..] == [];
    assert cmds[1..] == [cmds[1]] && [cmds[1]][1..] == [];
    assert CommandsSteps(f, l, 0, [cmds[1]]) == CommandSteps(f, l, 0, cmds[1]);
  }

  /** Such a frame should run the callback and then issue the draw. */
  lemma CallbackThenDrawReference(d: DrawData, u: nat, cmd: DrawCmd)
    requires CallbackThenDraw(d, u, cmd)
    ensures Steps(d) == [Side(CallbackRan(0, u)), Item(ParamsOf(FrameOf(d), d.lists[0], cmd))]
  {
    var f := FrameOf(d);
    var l := d.lists[0];
    OneListTwoCommands(f, d.lists);
    assert CommandSteps(f, l, 0, l.commands[0]) == [Side(CallbackRan(0, u))];
    assert CommandSteps(f, l, 0, l.commands[1]) == [Item(ParamsOf(f, l, cmd))];
  }

  /** As written, the `for` loop over the iterator runs the callback and ends. */
  lemma CallbackThenDrawAsWritten(d: DrawData, u: nat, cmd: DrawCmd)
    requires CallbackThenDraw(d, u, cmd)
    ensures ForLoop(d, EndIteration) == [Side(CallbackRan(0, u))]
  {
    var c := Start(d);
    assert c == Cursor(1, Some(Pos(0, 0)));
    assert Advance(d, EndIteration, c) == Tick([CallbackRan(0, u)], None, Cursor(1, Some(Pos(0, 1))), true);
    assert Next(d, EndIteration, c) == Pulled([CallbackRan(0, u)], None, Cursor(1, Some(Pos(0, 1))));
    DrainUnfold(d, EndIteration, c);
    assert Sides([CallbackRan(0, u)]) == [Side(CallbackRan(0, u))];
  }

  /** A raw callback followed by a visible draw: as written, the callback runs and
      the draw is lost; the reference sequence keeps it. */
  lemma ForLoopAsWrittenDropsCommandAfterCallback(d: DrawData, u: nat, cmd: DrawCmd)
    requires CallbackThenDraw(d, u, cmd)
    ensures ForLoop(d, EndIteration) == [Side(CallbackRan(0, u))]
    ensures Items(ForLoop(d, EndIteration)) == []
    ensures Params(d) == [ParamsOf(FrameOf(d), d.lists[0], cmd)]
  {
    CallbackThenDrawReference(d, u, cmd);
    CallbackThenDrawAsWritten(d, u, cmd);
    var s := Steps(d);
    assert s[1..][1..] == [];
    assert Items(s) == Items(s[1..]);
    assert Items([Side(CallbackRan(0, u))]) == [];
  }

  /** A degenerate framebuffer yields nothing, under either policy. */
  lemma DegenerateYieldsNothing(d: DrawData)
    requires d.displaySize.x * d.framebufferScale.x <= 0.0 || d.displaySize.y * d.framebufferScale.y <= 0.0
    ensures Steps(d) == [] && Params(d) == []
    ensures ForLoop(d, EndIteration) == [] && ForLoop(d, SkipCommand) == []
  {
  }

  /** With no display offset and unit scale the clip transform is the identity. */
  lemma ClipTransformIdentity(c: ClipRect)
    ensures TransformClip(c, Vec2(0.0, 0.0), Vec2(1.0, 1.0)) == c
  {
  }

  /** On an 800x600 framebuffer a clip rectangle right of it is culled and one
      covering it exactly is kept. */
  lemma CullingExamples()
    ensures var f := FrameOf(DrawData(Vec2(0.0, 0.0), Vec2(800.0, 600.0), Vec2(1.0, 1.0), []));
      Culled(f, ClipRect(900.0, 0.0, 950.0, 50.0)) && !Culled(f, ClipRect(0.0, 0.0, 800.0, 600.0))
  {
  }

  /** The scissor holds the transformed clip rectangle's extents, whatever the
      display offset; with no offset its corner is the transformed rectangle's
      lower-left corner in a framebuffer whose y grows upward. */
  lemma ScissorMatchesTransformedClip(f: Frame, c: ClipRect)
    ensures var t := TransformClip(c, f.clipOff, f.clipScale); var s := ScissorOf(f, c);
      && s.right == t.z - t.x
      && s.bottom == t.w - t.y
      && (f.clipOff == Vec2(0.0, 0.0) ==> s.left == t.x && s.top == f.fbHeight - t.w)
  {
  }

  // ---------------------------------------------------------------------------
  // Membership: which steps the frame produces

  predicate StepAt(f: Frame, lists: seq<DrawList>, base: nat, i: int, j: int, s: Step) {
    && 0 <= i < |lists|
    && 0 <= j < |lists[i].commands|
    && s in CommandSteps(f, lists[i], base + i, lists[i].commands[j])
  }

  lemma {:induction false} CommandsStepsMembership(f: Frame, list: DrawList, li: nat, cmds: seq<DrawCmd>, s: Step)
    ensures s in CommandsSteps(f, list, li, cmds) <==> exists j :: 0 <= j < |cmds| && s in CommandSteps(f, list, li, cmds[j])
    decreases |cmds|
  {
    if |cmds| > 0 {
      CommandsStepsMembership(f, list, li, cmds[1..], s);
      if s in CommandsSteps(f, list, li, cmds) && s !in CommandSteps(f, list, li, cmds[0]) {
        var j :| 0 <= j < |cmds[1..]| && s in CommandSteps(f, list, li, cmds[1..][j]);
        assert cmds[1..][j] == cmds[j + 1];
      }
      if exists j :: 0 <= j < |cmds| && s in CommandSteps(f, list, li, cmds[j]) {
        var j :| 0 <= j < |cmds| && s in CommandSteps(f, list, li, cmds[j]);
        if j > 0 {
          assert cmds[1..][j - 1] == cmds[j];
        }
      }
    }
  }

  lemma {:induction false} ListsStepsMembership(f: Frame, lists: seq<DrawList>, base: nat, s: Step)
    ensures s in ListsSteps(f, lists, base) <==> exists i, j :: StepAt(f, lists, base, i, j, s)
    decreases |lists|
  {
    if |lists| > 0 {
      CommandsStepsMembership(f, lists[0], base, lists[0].commands, s);
      ListsStepsMembership(f, lists[1..], base + 1, s);
      if s in ListsSteps(f, lists, base) {
        if s in CommandsSteps(f, lists[0], base, lists[0].commands) {
          var j :| 0 <= j < |lists[0].commands| && s in CommandSteps(f, lists[0], base, lists[0].commands[j]);
          assert StepAt(f, lists, base, 0, j, s);
        } else {
          var i, j :| StepAt(f, lists[1..], base + 1, i, j, s);
          assert lists[1..][i] == lists[i + 1];
          assert StepAt(f, lists, base, i + 1, j, s);
        }
      }
      if exists i, j :: StepAt(f, lists, base, i, j, s) {
        var i, j :| StepAt(f, lists, base, i, j, s);
        if i > 0 {
          assert lists[1..][i - 1] == lists[i];
          assert StepAt(f, lists[1..], base + 1, i - 1, j, s);
        }
      }
    }
  }

  lemma StepsMembership(d: DrawData, s: Step)
    ensures s in Steps(d) <==> !Degenerate(FrameOf(d)) && exists i, j :: StepAt(FrameOf(d), d.lists, 0, i, j, s)
  {
    ListsStepsMembership(FrameOf(d), d.lists, 0, s);
  }

  /** Command `j` of list `i` is an `Elements` command whose transformed clip
      rectangle meets the framebuffer, and `p` is the draw call built from it. */
  predicate Yields(d: DrawData, i: int, j: int, p: DrawParams) {
    && 0 <= i < |d.lists|
    && 0 <= j < |d.lists[i].commands|
    && var f := FrameOf(d);
       var cmd := d.lists[i].commands[j];
       && cmd.Elements?
       && var t := TransformClip(cmd.clip, f.clipOff, f.clipScale);
          && t.x < f.fbWidth && t.y < f.fbHeight && t.z >= 0.0 && t.w >= 0.0
          && p.display == f.display
          && p.vtxBuffer == d.lists[i].vtxBuffer
          && p.idxBuffer == d.lists[i].idxBuffer
          && p.vtxOffset == cmd.vtxOffset
          && p.idxOffset == cmd.idxOffset
          && p.nElems == cmd.count
          && p.texId == cmd.textureId
          && p.scissor == ScissorOf(f, cmd.clip)
  }

  /** A draw call is produced exactly for the visible `Elements` commands of a
      non-degenerate frame, and carries that command's offsets, count and texture
      and its list's buffers. */
  lemma DrawCallIff(d: DrawData, p: DrawParams)
    ensures Item(p) in Steps(d) <==> !Degenerate(FrameOf(d)) && exists i, j :: Yields(d, i, j, p)
  {
    var f := FrameOf(d);
    StepsMembership(d, Item(p));
    forall i, j
      ensures StepAt(f, d.lists, 0, i, j, Item(p)) <==> Yields(d, i, j, p)
    {
    }
  }

  /** A raw callback is invoked exactly for the `RawCallback` commands of a
      non-degenerate frame, with its own list index and user data. */
  lemma CallbackIff(d: DrawData, li: nat, u: nat)
    ensures Side(CallbackRan(li, u)) in Steps(d) <==>
      !Degenerate(FrameOf(d)) && li < |d.lists| && RawCallback(u) in d.lists[li].commands
  {
    var f := FrameOf(d);
    var s := Side(CallbackRan(li, u));
    StepsMembership(d, s);
    if s in Steps(d) {
      var i, j :| StepAt(f, d.lists, 0, i, j, s);
      assert d.lists[i].commands[j] == RawCallback(u);
    }
    if !Degenerate(f) && li < |d.lists| && RawCallback(u) in d.lists[li].commands {
      var j :| 0 <= j < |d.lists[li].commands| && d.lists[li].commands[j] == RawCallback(u);
      assert StepAt(f, d.lists, 0, li, j, s);
    }
  }

  lemma {:induction false} ItemsMembership(steps: seq<Step>, p: DrawParams)
    ensures p in Items(steps) <==> Item(p) in steps
    decreases |steps|
  {
    if |steps| > 0 {
      ItemsMembership(steps[1..], p);
      assert steps == [steps[0]] + steps[1..];
    }
  }

  /** Every draw call of a frame carries the frame's display rectangle, which has
      non-zero width and height, so the projection built from it is well formed. */
  lemma DrawCallsShareDisplay(d: DrawData, p: DrawParams)
    requires p in Params(d)
    ensures p.display == FrameOf(d).display
    ensures p.display.left == d.displayPos.x && p.display.right == d.displayPos.x + d.displaySize.x
    ensures p.display.bottom == d.displayPos.y && p.display.top == d.displayPos.y + d.displaySize.y
    ensures p.display.right != p.display.left && p.display.top != p.display.bottom
  {
    ItemsMembership(Steps(d), p);
    DrawCallIff(d, p);
    var i, j :| Yields(d, i, j, p);
  }

  // ---------------------------------------------------------------------------
  // Order: list order, then command order

  lemma {:induction false} ItemsConcat(x: seq<Step>, y: seq<Step>)
    ensures Items(x + y) == Items(x) + Items(y)
    decreases |x|
  {
    if |x| > 0 {
      assert (x + y)[1..] == x[1..] + y;
      ItemsConcat(x[1..], y);
    } else {
      assert x + y == y;
    }
  }

  lemma {:induction false} CommandsStepsConcat(f: Frame, list: DrawList, li: nat, a: seq<DrawCmd>, b: seq<DrawCmd>)
    ensures CommandsSteps(f, list, li, a + b) == CommandsSteps(f, list, li, a) + CommandsSteps(f, list, li, b)
    decreases |a|
  {
    if |a| > 0 {
      assert (a + b)[1..] == a[1..] + b;
      CommandsStepsConcat(f, list, li, a[1..], b);
    } else {
      assert a + b == b;
    }
  }

  lemma {:induction false} ListsStepsConcat(f: Frame, a: seq<DrawList>, b: seq<DrawList>, base: nat)
    ensures ListsSteps(f, a + b, base) == ListsSteps(f, a, base) + ListsSteps(f, b, base + |a|)
    decreases |a|
  {
    if |a| > 0 {
      assert (a + b)[1..] == a[1..] + b;
      ListsStepsConcat(f, a[1..], b, base + 1);
    } else {
      assert a + b == b;
    }
  }

  lemma CommandItemsIgnoreIndex(f: Frame, list: DrawList, li: nat, lj: nat, cmd: DrawCmd)
    ensures Items(CommandSteps(f, list, li, cmd)) == Items(CommandSteps(f, list, lj, cmd))
  {
    match cmd
    case Elements(_, _, _, _, _) =>
    case ResetRenderState =>
    case RawCallback(u) =>
      assert Items([Side(CallbackRan(li, u))]) == [];
      assert Items([Side(CallbackRan(lj, u))]) == [];
  }

  lemma {:induction false} CommandsItemsIgnoreIndex(f: Frame, list: DrawList, li: nat, lj: nat, cmds: seq<DrawCmd>)
    ensures Items(CommandsSteps(f, list, li, cmds)) == Items(CommandsSteps(f, list, lj, cmds))
    decreases |cmds|
  {
    if |cmds| > 0 {
      CommandsItemsIgnoreIndex(f, list, li, lj, cmds[1..]);
      CommandItemsIgnoreIndex(f, list, li, lj, cmds[0]);
      ItemsConcat(CommandSteps(f, list, li, cmds[0]), CommandsSteps(f, list, li, cmds[1..]));
      ItemsConcat(CommandSteps(f, list, lj, cmds[0]), CommandsSteps(f, list, lj, cmds[1..]));
    }
  }

  lemma {:induction false} ListsItemsIgnoreBase(f: Frame, lists: seq<DrawList>, b1: nat, b2: nat)
    ensures Items(ListsSteps(f, lists, b1)) == Items(ListsSteps(f, lists, b2))
    decreases |lists|
  {
    if |lists| > 0 {
      ListsItemsIgnoreBase(f, lists[1..], b1 + 1, b2 + 1);
      CommandsItemsIgnoreIndex(f, lists[0], b1, b2, lists[0].commands);
      ItemsConcat(CommandsSteps(f, lists[0], b1, lists[0].commands), ListsSteps(f, lists[1..], b1 + 1));
      ItemsConcat(CommandsSteps(f, lists[0], b2, lists[0].commands), ListsSteps(f, lists[1..], b2 + 1));
    }
  }

  /** The draw calls of a frame whose lists are `a + b` are those of `a` followed
      by those of `b`. */
  lemma ParamsOfJoinedLists(d: DrawData, a: seq<DrawList>, b: seq<DrawList>)
    requires d.lists == a + b
    ensures Params(d) == Params(d.(lists := a)) + Params(d.(lists := b))
  {
    var f := FrameOf(d);
    assert FrameOf(d.(lists := a)) == f && FrameOf(d.(lists := b)) == f;
    if !Degenerate(f) {
      assert Steps(d) == ListsSteps(f, a + b, 0);
      ListsStepsConcat(f, a, b, 0);
      ItemsConcat(ListsSteps(f, a, 0), ListsSteps(f, b, |a|));
      ListsItemsIgnoreBase(f, b, |a|, 0);
    }
  }

  /** The draw calls of a list whose commands are `a + b` are those of `a` followed
      by those of `b`. */
  lemma ParamsOfJoinedCommands(d: DrawData, list: DrawList, a: seq<DrawCmd>, b: seq<DrawCmd>)
    requires d.lists == [list] && list.commands == a + b
    ensures Params(d) == Params(d.(lists := [list.(commands := a)])) + Params(d.(lists := [list.(commands := b)]))
  {
    var f := FrameOf(d);
    var la, lb := list.(commands := a), list.(commands := b);
    assert FrameOf(d.(lists := [la])) == f && FrameOf(d.(lists := [lb])) == f;
    if !Degenerate(f) {
      SingleListSteps(f, list);
      SingleListSteps(f, la);
      SingleListSteps(f, lb);
      CommandsStepsConcat(f, list, 0, a, b);
      SameBuffersSameSteps(f, list, la, 0, a);
      SameBuffersSameSteps(f, list, lb, 0, b);
      ItemsConcat(CommandsSteps(f, list, 0, a), CommandsSteps(f, list, 0, b));
    }
  }

  lemma SingleListSteps(f: Frame, list: DrawList)
    ensures ListsSteps(f, [list], 0) == CommandsSteps(f, list, 0, list.commands)
  {
    assert [list][1..] == [];
  }

  lemma {:induction false} SameBuffersSameSteps(f: Frame, l1: DrawList, l2: DrawList, li: nat, cmds: seq<DrawCmd>)
    requires l1.vtxBuffer == l2.vtxBuffer && l1.idxBuffer == l2.idxBuffer
    ensures CommandsSteps(f, l1, li, cmds) == CommandsSteps(f, l2, li, cmds)
    decreases |cmds|
  {
    if |cmds| > 0 {
      SameBuffersSameSteps(f, l1, l2, li, cmds[1..]);
    }
  }
}
