/**
 * The top-left tool menu: the four presets, the hit area that grows while
 * the menu is open, and what a press inside it does (the `inMenu` closure
 * of `updateInput`).
 */
module Menu {
  import opened Options
  import opened Events

  /** `brushTool`: "Stamp Tool", "Line Tool" or "Fan Line Tool". */
  datatype Tool = StampTool | LineTool | FanLineTool

  /** `texture`: "Rounded" or "Rake" (line presets leave it undefined). */
  datatype Texture = Rounded | Rake

  datatype Preset = Preset(brush: Tool, texture: Option<Texture>, menuName: string)

  /** `toolPresets`, in menu order. */
  const ToolPresets: seq<Preset> := [
    Preset(StampTool, Some(Rounded), "Rounded"),
    Preset(StampTool, Some(Rake), "Rake"),
    Preset(LineTool, None, "Line"),
    Preset(FanLineTool, None, "Line F")
  ]

  const MenuW: real := 100.0
  const RowH: real := 60.0

  /** The height of the hit area: the header row, plus one row per preset while open. */
  function MenuH(menuOpened: bool): (h: real)
    ensures !menuOpened ==> h == RowH
    ensures menuOpened ==> h == RowH * (|ToolPresets| as real + 1.0)
  {
    RowH + if menuOpened then RowH * |ToolPresets| as real else 0.0
  }

  /** `inMenu`: left of 100 pixels and above the hit area's bottom edge (60 closed, 300 open). */
  function InMenu(x: real, y: real, menuOpened: bool): (b: bool)
    ensures b <==> x < 100.0 && y < (if menuOpened then 300.0 else 60.0)
  {
    x < MenuW && y < MenuH(menuOpened)
  }

  /** The menu row under `y`: -1 for the header, k for the k-th preset. */
  function MenuSpot(y: real): (k: int)
    ensures (k + 1) as real * RowH <= y < (k + 2) as real * RowH
  {
    var q := y / RowH;
    assert q * RowH == y;
    q.Floor - 1
  }

  /** The globals the menu reads and writes. */
  datatype MenuState = MenuState(menuOpened: bool, tool: Tool, texture: Option<Texture>)

  /** The stamp tool carries a texture and the line tools do not, as in every preset. */
  predicate PresetPair(tool: Tool, texture: Option<Texture>) {
    if tool == StampTool then texture.Some? else texture.None?
  }

  /** The pairs allowed by `PresetPair` are exactly the presets' pairs. */
  lemma PresetPairIsPreset(tool: Tool, texture: Option<Texture>)
    ensures PresetPair(tool, texture) <==>
      exists i :: 0 <= i < |ToolPresets| && ToolPresets[i].brush == tool && ToolPresets[i].texture == texture
  {
    if PresetPair(tool, texture) {
      var i := match (tool, texture)
        case (StampTool, Some(Rounded)) => 0
        case (StampTool, _) => 1
        case (LineTool, _) => 2
        case (FanLineTool, _) => 3;
      assert ToolPresets[i].brush == tool && ToolPresets[i].texture == texture;
    }
    if exists i :: 0 <= i < |ToolPresets| && ToolPresets[i].brush == tool && ToolPresets[i].texture == texture {
      var i :| 0 <= i < |ToolPresets| && ToolPresets[i].brush == tool && ToolPresets[i].texture == texture;
      assert i == 0 || i == 1 || i == 2 || i == 3;
    }
  }

  predicate ValidMenu(m: MenuState) {
    PresetPair(m.tool, m.texture)
  }

  /** The state before any press: the menu closed, the "Rounded" stamp selected. */
  const InitialMenu: MenuState := MenuState(false, StampTool, Some(Rounded))

  /**
   * For a point of the hit area (computed with `openAtStart`, the menu
   * state when the event began): a press on a preset row selects that
   * preset's tool and texture, a press on the header toggles the menu, and
   * any other event changes nothing.
   */
  function PressMenu(m: MenuState, kind: EventKind, y: real, openAtStart: bool): (r: MenuState)
    requires y < MenuH(openAtStart)
    ensures !IsPress(kind) ==> r == m
    ensures IsPress(kind) && 0 <= MenuSpot(y) ==>
      MenuSpot(y) < |ToolPresets| && r.menuOpened == m.menuOpened &&
      r.tool == ToolPresets[MenuSpot(y)].brush && r.texture == ToolPresets[MenuSpot(y)].texture
    ensures IsPress(kind) && MenuSpot(y) < 0 ==> r == m.(menuOpened := !m.menuOpened)
  {
    if !IsPress(kind) then m
    else
      var spot := MenuSpot(y);
      if spot >= 0 then
        SpotInRange(y, openAtStart);
        m.(tool := ToolPresets[spot].brush, texture := ToolPresets[spot].texture)
      else m.(menuOpened := !m.menuOpened)
  }

  lemma SpotInRange(y: real, menuOpened: bool)
    requires y < MenuH(menuOpened)
    ensures MenuSpot(y) < |ToolPresets|
    ensures !menuOpened ==> MenuSpot(y) < 0
  {
    var q := y / RowH;
    assert q * RowH == y;
    if menuOpened {
      assert q < 5.0;
    } else {
      assert q < 1.0;
    }
  }

  /**
   * The hit test: for a point at or below the top edge, the row is the
   * header (-1) or a valid preset index, and with the menu closed it can
   * only be the header.
   */
  lemma MenuHitTest(y: real, menuOpened: bool)
    requires 0.0 <= y < MenuH(menuOpened)
    ensures -1 <= MenuSpot(y) < |ToolPresets|
    ensures !menuOpened ==> MenuSpot(y) == -1
    ensures menuOpened ==> (MenuSpot(y) == -1 <==> y < RowH)
  {
    SpotInRange(y, menuOpened);
    var q := y / RowH;
    assert q * RowH == y;
    assert 0.0 <= q;
    if y < RowH {
      assert q < 1.0;
    } else {
      assert 1.0 <= q;
    }
  }

  /** Whatever is pressed, the tool and texture stay one of the presets' pairs. */
  lemma PressMenuKeepsPreset(m: MenuState, kind: EventKind, y: real, openAtStart: bool)
    requires ValidMenu(m) && y < MenuH(openAtStart)
    ensures ValidMenu(PressMenu(m, kind, y, openAtStart))
  {
    var r := PressMenu(m, kind, y, openAtStart);
    if IsPress(kind) && 0 <= MenuSpot(y) {
      var i := MenuSpot(y);
      PresetPairIsPreset(r.tool, r.texture);
      assert ToolPresets[i].brush == r.tool && ToolPresets[i].texture == r.texture;
    }
  }

  /** Two presses on the header restore the menu. */
  lemma HeaderToggleTwice(m: MenuState, kind: EventKind, y: real, openAtStart: bool)
    requires IsPress(kind) && y < RowH && y < MenuH(openAtStart)
    ensures PressMenu(PressMenu(m, kind, y, openAtStart), kind, y, openAtStart) == m
  {
    var q := y / RowH;
    assert q * RowH == y;
    assert q < 1.0;
  }

}
