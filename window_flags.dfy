/**
 * WindowFlags: a value wrapper around ImGui's 32-bit window-flag set, with one
 * boolean property per named flag, a `None` property, the table that drives the
 * flag editor, and the code generator that turns the set flags back into C#
 * assignments (VSImGui/src/Styles/WindowStyle.cs).
 *
 * A 32-bit flag word is modelled exactly by the set of its bit positions
 * (bit i set <==> i in the set): `a | b` is `a + b`, `a & ~b` is `a - b`,
 * `(a & b) != 0` is `a * b != {}`, and "all bits of m set" is `m <= a`.
 * Every mask below lies inside bits 0..31; the hexadecimal value ImGui gives
 * each flag is written beside it.
 *
 * The C# type is a struct whose property setters reassign its one field, so
 * the model is a datatype and every setter returns the updated value. A named
 * flag is its property name together with ImGui's mask for it.
 */
module WindowFlagsModel {
  import Editors

  type Bits = set<nat>

  datatype Flag = Flag(name: string, mask: Bits)

  const NoTitleBar := Flag("NoTitleBar", {0})                         // 0x1
  const NoResize := Flag("NoResize", {1})                             // 0x2
  const NoMove := Flag("NoMove", {2})                                 // 0x4
  const NoScrollbar := Flag("NoScrollbar", {3})                       // 0x8
  const NoScrollWithMouse := Flag("NoScrollWithMouse", {4})           // 0x10
  const NoCollapse := Flag("NoCollapse", {5})                         // 0x20
  const AlwaysAutoResize := Flag("AlwaysAutoResize", {6})             // 0x40
  const NoBackground := Flag("NoBackground", {7})                     // 0x80
  const NoSavedSettings := Flag("NoSavedSettings", {8})               // 0x100
  const NoMouseInputs := Flag("NoMouseInputs", {9})                   // 0x200
  const MenuBar := Flag("MenuBar", {10})                              // 0x400
  const HorizontalScrollbar := Flag("HorizontalScrollbar", {11})      // 0x800
  const NoFocusOnAppearing := Flag("NoFocusOnAppearing", {12})        // 0x1000
  const NoBringToFrontOnFocus := Flag("NoBringToFrontOnFocus", {13})  // 0x2000
  const AlwaysVerticalScrollbar := Flag("AlwaysVerticalScrollbar", {14})      // 0x4000
  const AlwaysHorizontalScrollbar := Flag("AlwaysHorizontalScrollbar", {15})  // 0x8000
  const AlwaysUseWindowPadding := Flag("AlwaysUseWindowPadding", {16})        // 0x10000
  const NoNavInputs := Flag("NoNavInputs", {18})                      // 0x40000
  const NoNavFocus := Flag("NoNavFocus", {19})                        // 0x80000
  const UnsavedDocument := Flag("UnsavedDocument", {20})              // 0x100000
  const NoDocking := Flag("NoDocking", {21})                          // 0x200000
  /** Composite: NoNavInputs | NoNavFocus. */
  const NoNav := Flag("NoNav", {18, 19})                              // 0xC0000
  /** Composite: NoTitleBar | NoResize | NoScrollbar | NoCollapse. */
  const NoDecoration := Flag("NoDecoration", {0, 1, 3, 5})            // 0x2B
  /** Composite: NoMouseInputs | NoNavInputs | NoNavFocus. */
  const NoInputs := Flag("NoInputs", {9, 18, 19})                     // 0xC0200
  const NavFlattened := Flag("NavFlattened", {23})                    // 0x800000
  const ChildWindow := Flag("ChildWindow", {24})                      // 0x1000000
  const Tooltip := Flag("Tooltip", {25})                              // 0x2000000
  const Popup := Flag("Popup", {26})                                  // 0x4000000
  const Modal := Flag("Modal", {27})                                  // 0x8000000
  const ChildMenu := Flag("ChildMenu", {28})                          // 0x10000000
  const DockNodeHost := Flag("DockNodeHost", {29})                    // 0x20000000

  /** The flags WindowPropertiesToCode checks, in the order it checks them. */
  const CodeOrder: seq<Flag> := [
    NoTitleBar, NoResize, NoMove, NoScrollbar, NoScrollWithMouse,
    NoCollapse, AlwaysAutoResize, NoBackground, NoSavedSettings,
    NoMouseInputs, MenuBar, HorizontalScrollbar, NoFocusOnAppearing,
    NoBringToFrontOnFocus, AlwaysVerticalScrollbar, AlwaysHorizontalScrollbar,
    AlwaysUseWindowPadding, NoNavInputs, NoNavFocus, UnsavedDocument,
    NoDocking, NoNav, NoDecoration, NoInputs, NavFlattened, ChildWindow,
    Tooltip, Popup, Modal, ChildMenu
  ]

  /** The struct's flag properties, in declaration order: the generator's list, then DockNodeHost. */
  const NamedFlags: seq<Flag> := CodeOrder + [DockNodeHost]

  /** A flag's getter: it reads as set when ANY bit of its mask is set. */
  predicate Test(v: Bits, f: Flag) {
    v * f.mask != {}
  }

  /** A flag's setter: OR the mask in on `true`, clear it (AND with its complement) on `false`. */
  function Assign(v: Bits, f: Flag, b: bool): (w: Bits)
    ensures w - f.mask == v - f.mask
    ensures b ==> f.mask <= w
    ensures !b ==> w * f.mask == {}
  {
    if b then v + f.mask else v - f.mask
  }

  /** Setting a flag and reading it back gives the assigned value (for a non-empty mask). */
  lemma AssignThenTest(v: Bits, f: Flag, b: bool)
    requires f.mask != {}
    ensures Test(Assign(v, f, b), f) == b
  {
    if b {
      var x :| x in f.mask;
      assert x in Assign(v, f, b) * f.mask;
    }
  }

  /** A setter leaves every flag whose mask does not overlap its own as it was. */
  lemma AssignKeepsDisjoint(v: Bits, f: Flag, g: Flag, b: bool)
    requires f.mask * g.mask == {}
    ensures Test(Assign(v, f, b), g) == Test(v, g)
  {
    var w := Assign(v, f, b);
    forall x | x in g.mask
      ensures x !in f.mask
    {
      assert x !in f.mask * g.mask;
    }
    assert w * g.mask == (w - f.mask) * g.mask;
    assert v * g.mask == (v - f.mask) * g.mask;
  }

  /** A flag is part of a composite when its bits lie inside the composite's. */
  predicate PartOf(p: Flag, c: Flag) {
    p.mask <= c.mask
  }

  /** The composite masks are exactly the unions of their parts. */
  lemma CompositeMasks()
    ensures NoNav.mask == NoNavInputs.mask + NoNavFocus.mask
    ensures NoDecoration.mask == NoTitleBar.mask + NoResize.mask + NoScrollbar.mask + NoCollapse.mask
    ensures NoInputs.mask == NoMouseInputs.mask + NoNavInputs.mask + NoNavFocus.mask
  {
  }

  /** A composite reads true as soon as ANY of its parts does. */
  lemma CompositeReadsAnyPart(v: Bits, c: Flag, parts: seq<Flag>)
    requires c.mask == UnionOf(parts)
    ensures Test(v, c) <==> exists i :: 0 <= i < |parts| && Test(v, parts[i])
  {
    if Test(v, c) {
      var x :| x in v * c.mask;
      var i := UnionMember(parts, x);
      assert x in v * parts[i].mask;
    } else {
      forall i | 0 <= i < |parts|
        ensures !Test(v, parts[i])
      {
        UnionContains(parts, i);
      }
    }
  }

  /** The union of the masks of `fs`. */
  function UnionOf(fs: seq<Flag>): Bits {
    if fs == [] then {} else fs[0].mask + UnionOf(fs[1..])
  }

  lemma {:induction false} UnionContains(fs: seq<Flag>, i: nat)
    requires i < |fs|
    ensures fs[i].mask <= UnionOf(fs)
  {
    if i > 0 {
      UnionContains(fs[1..], i - 1);
    }
  }

  lemma {:induction false} UnionMember(fs: seq<Flag>, x: nat) returns (i: nat)
    requires x in UnionOf(fs)
    ensures i < |fs| && x in fs[i].mask
  {
    if x in fs[0].mask {
      i := 0;
    } else {
      var j := UnionMember(fs[1..], x);
      i := j + 1;
    }
  }

  /** NoNav, NoDecoration and NoInputs read true when any one of their parts does. */
  lemma NamedCompositesReadAnyPart(v: Bits)
    ensures Test(v, NoNav) <==> Test(v, NoNavInputs) || Test(v, NoNavFocus)
    ensures Test(v, NoDecoration) <==>
      Test(v, NoTitleBar) || Test(v, NoResize) || Test(v, NoScrollbar) || Test(v, NoCollapse)
    ensures Test(v, NoInputs) <==> Test(v, NoMouseInputs) || Test(v, NoNavInputs) || Test(v, NoNavFocus)
  {
    var nav := [NoNavInputs, NoNavFocus];
    var decoration := [NoTitleBar, NoResize, NoScrollbar, NoCollapse];
    var inputs := [NoMouseInputs, NoNavInputs, NoNavFocus];
    assert UnionOf(nav) == NoNav.mask by {
      assert UnionOf(nav[1..]) == {19};
    }
    assert UnionOf(decoration) == NoDecoration.mask by {
      assert UnionOf(decoration[3..]) == {5};
      assert decoration[2..][1..] == decoration[3..];
      assert UnionOf(decoration[2..]) == {3, 5};
      assert decoration[1..][1..] == decoration[2..];
      assert UnionOf(decoration[1..]) == {1, 3, 5};
    }
    assert UnionOf(inputs) == NoInputs.mask by {
      assert UnionOf(inputs[2..]) == {19};
      assert inputs[1..][1..] == inputs[2..];
      assert UnionOf(inputs[1..]) == {18, 19};
    }
    CompositeReadsAnyPart(v, NoNav, nav);
    CompositeReadsAnyPart(v, NoDecoration, decoration);
    CompositeReadsAnyPart(v, NoInputs, inputs);
  }

  /** Clearing a composite clears each of its parts; setting it sets each of them. */
  lemma AssignCompositeReachesParts(v: Bits, c: Flag, p: Flag, b: bool)
    requires PartOf(p, c) && p.mask != {}
    ensures Test(Assign(v, c, b), p) == b
  {
    var x :| x in p.mask;
    if b {
      assert x in Assign(v, c, b) * p.mask;
    }
  }

  /** The struct: one ImGuiWindowFlags value, None (no bit) by default. */
  datatype WindowFlags = WindowFlags(value: Bits)
  {
    /** A named flag's getter. */
    predicate Get(f: Flag) {
      Test(value, f)
    }

    /** A named flag's setter; nothing but that flag's bits changes. */
    function Set(f: Flag, b: bool): (r: WindowFlags)
      ensures f.mask != {} ==> r.Get(f) == b
      ensures r.value - f.mask == value - f.mask
    {
      if f.mask != {} then
        AssignThenTest(value, f, b);
        WindowFlags(Assign(value, f, b))
      else
        WindowFlags(Assign(value, f, b))
    }

    /** `None` reads true exactly when no bit is set. */
    function IsNone(): (b: bool)
      ensures b <==> value == {}
    {
      value == {}
    }

    /** Setting `None` to true clears every bit; setting it to false changes nothing. */
    function SetNone(b: bool): (r: WindowFlags)
      ensures b ==> r.IsNone()
      ensures !b ==> r == this
    {
      if b then WindowFlags({}) else this
    }

    /**
     * The flag editor: when the header is open, one checkbox per table row;
     * a pressed checkbox sets all of the row's bits unless they were all set
     * already, in which case it clears them. `pressed(i)` says whether the
     * user clicked row i this frame.
     */
    method DrawEditor(headerOpen: bool, pressed: int -> bool) returns (r: WindowFlags)
      ensures r.value == if headerOpen then EditorPass(value, pressed, |EditorNames|) else value
      ensures r.value - EditorCovered == value - EditorCovered
    {
      var dir := value;
      if headerOpen {
        var index := 0;
        while index < |EditorNames|
          invariant 0 <= index <= |EditorNames|
          invariant dir == EditorPass(value, pressed, index)
        {
          if pressed(index) {
            dir := CheckboxFlags(dir, EditorValues[index]);
          }
          index := index + 1;
        }
        EditorKeepsUncovered(value, pressed, |EditorNames|);
      }
      r := WindowFlags(dir);
    }
  }

  /** A setter leaves every flag whose mask does not overlap its own as it was. */
  lemma SetKeepsOthers(w: WindowFlags, f: Flag, g: Flag, b: bool)
    requires f.mask * g.mask == {}
    ensures w.Set(f, b).Get(g) == w.Get(g)
  {
    AssignKeepsDisjoint(w.value, f, g, b);
  }

  /** When `None` reads true, no named flag does. */
  lemma NoneReadsNothing(w: WindowFlags, f: Flag)
    requires w.IsNone()
    ensures !w.Get(f)
  {
  }

  /** The editor's row labels (WindowFlagsEnum); None and four flags are commented out there. */
  const EditorNames: seq<string> := [
    "NoTitleBar", "NoResize", "NoMove", "NoScrollbar", "NoScrollWithMouse",
    "NoCollapse", "AlwaysAutoResize", "NoBackground", "NoSavedSettings",
    "NoMouseInputs", "MenuBar", "HorizontalScrollbar", "NoFocusOnAppearing",
    "NoBringToFrontOnFocus", "AlwaysVerticalScrollbar", "AlwaysHorizontalScrollbar",
    "AlwaysUseWindowPadding", "NoNavInputs", "NoNavFocus", "UnsavedDocument",
    "NoDocking", "NoNav", "NoDecoration", "NoInputs", "Tooltip", "Modal", "DockNodeHost"
  ]

  /**
   * The editor's row masks (WindowFlagsEnumValues), row for row with EditorNames:
   * 0x1 .. 0x10000, 0x40000, 0x80000, 0x100000, 0x200000, 0xC0000, 0x2B,
   * 0xC0200, 0x2000000, 0x8000000, 0x20000000.
   */
  const EditorValues: seq<Bits> := [
    {0}, {1}, {2}, {3}, {4}, {5}, {6}, {7}, {8}, {9}, {10}, {11},
    {12}, {13}, {14}, {15}, {16}, {18}, {19}, {20},
    {21}, {18, 19}, {0, 1, 3, 5}, {9, 18, 19}, {25}, {27}, {29}
  ]

  /** The flags the editor rows stand for, as an independent reference. */
  const EditorFlags: seq<Flag> := [
    NoTitleBar, NoResize, NoMove, NoScrollbar, NoScrollWithMouse,
    NoCollapse, AlwaysAutoResize, NoBackground, NoSavedSettings,
    NoMouseInputs, MenuBar, HorizontalScrollbar, NoFocusOnAppearing,
    NoBringToFrontOnFocus, AlwaysVerticalScrollbar, AlwaysHorizontalScrollbar,
    AlwaysUseWindowPadding, NoNavInputs, NoNavFocus, UnsavedDocument,
    NoDocking, NoNav, NoDecoration, NoInputs, Tooltip, Modal, DockNodeHost
  ]

  /**
   * The two tables have the same length (27), so one index is valid in both,
   * and row i names the flag whose ImGui mask is the row's value.
   */
  lemma EditorTablesAgree()
    ensures |EditorNames| == |EditorValues| == |EditorFlags| == 27
    ensures forall i :: 0 <= i < 27 ==> EditorNames[i] == EditorFlags[i].name && EditorValues[i] == EditorFlags[i].mask
  {
  }

  /** The bits some editor row contains: 0..16, 18..21, 25, 27 and 29. */
  const EditorCovered: Bits :=
    {0, 1, 2, 3, 4, 5, 6, 7, 8, 9, 10, 11, 12, 13, 14, 15, 16, 18, 19, 20, 21, 25, 27, 29}

  /** ImGui's CheckboxFlags on a press: set all of `m` unless all of it was set, else clear it. */
  function CheckboxFlags(v: Bits, m: Bits): (w: Bits)
    ensures w - m == v - m
    ensures m <= v ==> w * m == {}
    ensures !(m <= v) ==> m <= w
  {
    if m <= v then v - m else v + m
  }

  /** The flags after the first `n` editor rows have been drawn. */
  function EditorPass(v: Bits, pressed: int -> bool, n: nat): Bits
    requires n <= |EditorValues|
  {
    if n == 0 then v
    else
      var w := EditorPass(v, pressed, n - 1);
      if pressed(n - 1) then CheckboxFlags(w, EditorValues[n - 1]) else w
  }

  lemma EditorRowsCovered()
    ensures forall i :: 0 <= i < |EditorValues| ==> EditorValues[i] <= EditorCovered
  {
  }

  /**
   * The editor never changes a bit outside its rows: NavFlattened, ChildWindow,
   * Popup, ChildMenu and the bits ImGui leaves unnamed survive any clicks.
   */
  lemma {:induction false} EditorKeepsUncovered(v: Bits, pressed: int -> bool, n: nat)
    requires n <= |EditorValues|
    ensures EditorPass(v, pressed, n) - EditorCovered == v - EditorCovered
  {
    if n > 0 {
      EditorKeepsUncovered(v, pressed, n - 1);
      EditorRowsCovered();
    }
  }

  /** The editor does not touch the flags its table leaves out. */
  lemma EditorKeepsHiddenFlag(v: Bits, pressed: int -> bool, f: Flag)
    requires f == NavFlattened || f == ChildWindow || f == Popup || f == ChildMenu
    ensures Test(EditorPass(v, pressed, |EditorValues|), f) == Test(v, f)
  {
    var w := EditorPass(v, pressed, |EditorValues|);
    EditorKeepsUncovered(v, pressed, |EditorValues|);
    assert f.mask * EditorCovered == {};
    assert w * f.mask == (w - EditorCovered) * f.mask;
    assert v * f.mask == (v - EditorCovered) * f.mask;
  }

  /** Every named flag but DockNodeHost is checked by the generator. */
  lemma CodeOrderSkipsOnlyDockNodeHost()
    ensures forall f :: f in NamedFlags ==> (f in CodeOrder <==> f != DockNodeHost)
  {
    forall i | 0 <= i < |CodeOrder|
      ensures CodeOrder[i] != DockNodeHost
    {
      assert 29 !in CodeOrder[i].mask;
    }
    assert DockNodeHost !in CodeOrder;
  }

  /**
   * How a generator reads a flag: as the getter does (any bit of the mask set),
   * or as a round-tripping generator must (all bits of the mask set).
   */
  datatype Reading = AnyBit | AllBits

  /** All of the flag's bits are set: how a composite must be read for the code to round-trip. */
  predicate TestAll(v: Bits, f: Flag) {
    f.mask <= v
  }

  predicate Reads(v: Bits, f: Flag, how: Reading) {
    match how
    case AnyBit => Test(v, f)
    case AllBits => TestAll(v, f)
  }

  /** The positions in `order`, from `from` on, of the flags that read as set, in increasing order. */
  function EmittedPositions(v: Bits, order: seq<Flag>, how: Reading, from: nat): (ix: seq<int>)
    requires from <= |order|
    ensures |ix| <= |order| - from
    ensures forall k :: 0 <= k < |ix| ==> from <= ix[k] < |order|
    ensures Editors.StrictlyIncreasing(ix)
    ensures forall i :: from <= i < |order| ==> (i in ix <==> Reads(v, order[i], how))
    decreases |order| - from
  {
    if from == |order| then []
    else if Reads(v, order[from], how) then [from] + EmittedPositions(v, order, how, from + 1)
    else EmittedPositions(v, order, how, from + 1)
  }

  /**
   * The flags a generator emits: those of `order` that read as set, each once,
   * in the order of `order` (their positions increase strictly), and no other.
   */
  function EmittedFlags(v: Bits, order: seq<Flag>, how: Reading): (r: seq<Flag>)
    ensures |r| <= |order|
    ensures |r| == |EmittedPositions(v, order, how, 0)|
    ensures forall k :: 0 <= k < |r| ==> r[k] == order[EmittedPositions(v, order, how, 0)[k]]
    ensures forall f :: f in r <==> f in order && Reads(v, f, how)
  {
    var ix := EmittedPositions(v, order, how, 0);
    var r := seq(|ix|, k requires 0 <= k < |ix| => order[ix[k]]);
    assert forall f :: f in order && Reads(v, f, how) ==> f in r by {
      forall f | f in order && Reads(v, f, how)
        ensures f in r
      {
        var i :| 0 <= i < |order| && order[i] == f;
        var k :| 0 <= k < |ix| && ix[k] == i;
        assert r[k] == f;
      }
    }
    r
  }

  /** The flags, in `order`, whose getter reads true: what the generator as written emits. */
  function Emitted(v: Bits, order: seq<Flag>): seq<Flag> {
    EmittedFlags(v, order, AnyBit)
  }

  function Line(f: Flag): string {
    "style.Flags." + f.name + " = true;"
  }

  /**
   * One assignment line per checked flag that reads true, in CodeOrder, and no
   * other line: line k assigns the k-th emitted flag.
   */
  function WindowPropertiesToCode(flags: WindowFlags): (lines: seq<string>)
    ensures |lines| <= |CodeOrder|
    ensures |lines| == |Emitted(flags.value, CodeOrder)|
    ensures forall k :: 0 <= k < |lines| ==> lines[k] == Line(Emitted(flags.value, CodeOrder)[k])
    ensures forall f :: f in Emitted(flags.value, CodeOrder) ==> Line(f) in lines
  {
    var fs := Emitted(flags.value, CodeOrder);
    var lines := seq(|fs|, i requires 0 <= i < |fs| => Line(fs[i]));
    assert forall k :: 0 <= k < |fs| ==> lines[k] == Line(fs[k]);
    lines
  }

  /** A named flag gets a line exactly when it reads true and is not DockNodeHost. */
  lemma EmittedExactly(v: Bits, f: Flag)
    requires f in NamedFlags
    ensures f in Emitted(v, CodeOrder) <==> f != DockNodeHost && Test(v, f)
  {
    CodeOrderSkipsOnlyDockNodeHost();
  }

  /** Running the generated assignments on a fresh (None) value, one `= true` per flag. */
  function Replay(acc: Bits, fs: seq<Flag>): Bits
    decreases |fs|
  {
    if fs == [] then acc else Replay(acc + fs[0].mask, fs[1..])
  }

  /** Replaying keeps what was already set and sets every mask it assigns. */
  lemma {:induction false} ReplaySetsAll(acc: Bits, fs: seq<Flag>)
    ensures acc <= Replay(acc, fs)
    ensures forall f :: f in fs ==> f.mask <= Replay(acc, fs)
    decreases |fs|
  {
    if fs != [] {
      ReplaySetsAll(acc + fs[0].mask, fs[1..]);
      assert forall f :: f in fs ==> f == fs[0] || f in fs[1..];
    }
  }

  /** Replaying stays inside `u` when the start and every assigned mask do. */
  lemma {:induction false} ReplayStaysWithin(acc: Bits, fs: seq<Flag>, u: Bits)
    requires acc <= u
    requires forall f :: f in fs ==> f.mask <= u
    ensures Replay(acc, fs) <= u
    decreases |fs|
  {
    if fs != [] {
      assert fs[0] in fs;
      ReplayStaysWithin(acc + fs[0].mask, fs[1..], u);
    }
  }

  /**
   * As written, the generated code does not reproduce the flags it came from:
   * with only NoNavInputs set (0x40000), NoNav and NoInputs read true too, so
   * the code also assigns them, and running it sets NoNavFocus and
   * NoMouseInputs, which were clear.
   */
  lemma WindowPropertiesToCodeOverreaches()
    ensures var v: Bits := {18};
      && NoNav in Emitted(v, CodeOrder) && NoInputs in Emitted(v, CodeOrder)
      && !Test(v, NoNavFocus) && !Test(v, NoMouseInputs)
      && Test(Replay({}, Emitted(v, CodeOrder)), NoNavFocus)
      && Test(Replay({}, Emitted(v, CodeOrder)), NoMouseInputs)
  {
    var v: Bits := {18};
    assert NoNav in CodeOrder && NoInputs in CodeOrder;
    assert 18 in v * NoNav.mask && 18 in v * NoInputs.mask;
    var fs := Emitted(v, CodeOrder);
    ReplaySetsAll({}, fs);
    assert 19 in Replay({}, fs) * NoNavFocus.mask;
    assert 9 in Replay({}, fs) * NoMouseInputs.mask;
  }

  /** The flags, in `order`, all of whose bits are set. */
  function EmittedCorrected(v: Bits, order: seq<Flag>): seq<Flag> {
    EmittedFlags(v, order, AllBits)
  }

  /** The generator with composites read as "all bits set": one line per such flag, in CodeOrder. */
  function WindowPropertiesToCodeCorrected(flags: WindowFlags): (lines: seq<string>)
    ensures |lines| <= |CodeOrder|
    ensures |lines| == |EmittedCorrected(flags.value, CodeOrder)|
    ensures forall k :: 0 <= k < |lines| ==> lines[k] == Line(EmittedCorrected(flags.value, CodeOrder)[k])
    ensures forall f :: f in EmittedCorrected(flags.value, CodeOrder) ==> Line(f) in lines
  {
    var fs := EmittedCorrected(flags.value, CodeOrder);
    var lines := seq(|fs|, i requires 0 <= i < |fs| => Line(fs[i]));
    assert forall k :: 0 <= k < |fs| ==> lines[k] == Line(fs[k]);
    lines
  }

  /** The corrected code, replayed on a fresh value, sets no bit that was clear. */
  lemma CorrectedCodeAddsNothing(v: Bits)
    ensures Replay({}, EmittedCorrected(v, CodeOrder)) <= v
  {
    ReplayStaysWithin({}, EmittedCorrected(v, CodeOrder), v);
  }

  /**
   * The corrected code round-trips: every named flag but DockNodeHost is fully
   * set after replaying it exactly when it was fully set before.
   */
  lemma CorrectedCodeRoundTrips(v: Bits, f: Flag)
    requires f in NamedFlags && f != DockNodeHost
    ensures TestAll(Replay({}, EmittedCorrected(v, CodeOrder)), f) <==> TestAll(v, f)
  {
    var fs := EmittedCorrected(v, CodeOrder);
    CodeOrderSkipsOnlyDockNodeHost();
    ReplaySetsAll({}, fs);
    CorrectedCodeAddsNothing(v);
  }
}
